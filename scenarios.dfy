/** Small programs, given as the categories of their tokens, and what the
    recognizer makes of them. Positions and values play no part in
    acceptance, so each lemma holds for every token list with those
    categories. */
module Scenarios {
  import opened Tokens
  import opened Grammar
  import GrammarFacts

  /** A lone operand (a number or a name not followed by `(`) before a
      token that continues no expression. */
  lemma {:induction false} LoneOperand(ts: seq<Token>, i: nat)
    requires i < |ts| && (ts[i].kind == Numero || (ts[i].kind == Identificador && !CallAhead(ts, i)))
    requires !IsAddOp(Peek(ts, i + 1)) && !IsMulOp(Peek(ts, i + 1))
    ensures Expression(ts, i) == Ok(i + 1)
  {
    assert Factor(ts, i) == Ok(i + 1);
    assert Term(ts, i) == Ok(i + 1);
  }

  /** Two lone operands around an operator of the additive and relational
      tier. */
  lemma {:induction false} BinaryOperation(ts: seq<Token>, i: nat)
    requires i + 2 < |ts| && IsAddOp(ts[i + 1].kind)
    requires ts[i].kind == Numero || (ts[i].kind == Identificador && !CallAhead(ts, i))
    requires ts[i + 2].kind == Numero || (ts[i + 2].kind == Identificador && !CallAhead(ts, i + 2))
    requires !IsAddOp(Peek(ts, i + 3)) && !IsMulOp(Peek(ts, i + 3))
    ensures Expression(ts, i) == Ok(i + 3)
  {
    assert Term(ts, i) == Ok(i + 1) by { assert Factor(ts, i) == Ok(i + 1); }
    assert Term(ts, i + 2) == Ok(i + 3) by { assert Factor(ts, i + 2) == Ok(i + 3); }
    assert ExprRest(ts, i + 3) == Ok(i + 3);
    assert ExprRest(ts, i + 1) == Ok(i + 3);
  }

  /** `{}`. */
  lemma {:induction false} EmptyBlock(ts: seq<Token>, i: nat)
    requires i + 1 < |ts| && ts[i].kind == ChaveEsq && ts[i + 1].kind == ChaveDir
    ensures Block(ts, i) == Ok(i + 2)
  {
    assert StatementList(ts, i + 1) == Ok(i + 1);
  }

  /** A block holding one statement followed by `;`. */
  lemma {:induction false} OneStatementBlock(ts: seq<Token>, i: nat, j: nat)
    requires i < |ts| && ts[i].kind == ChaveEsq && Peek(ts, i + 1) != ChaveDir && Peek(ts, i + 1) != Eof
    requires Statement(ts, i + 1) == Ok(j)
    requires Peek(ts, j) == PontoVirgula && Peek(ts, j + 1) == ChaveDir
    ensures Block(ts, i) == Ok(j + 2)
  {
    assert StatementList(ts, j + 1) == Ok(j + 1);
    assert Eat(ts, j, PontoVirgula) == Ok(j + 1);
    assert StatementList(ts, i + 1) == StatementList(ts, j + 1);
    assert Eat(ts, i, ChaveEsq) == Ok(i + 1);
    assert Eat(ts, j + 1, ChaveDir) == Ok(j + 2);
  }

  /** A whole program of one function `T f(...) B` whose parameter list ends
      at `pl` and whose body block ends at `b`, followed by the end of input. */
  lemma {:induction false} OneFunction(ts: seq<Token>, pl: nat, b: nat)
    requires 3 < |ts| && IsReturnType(ts[0].kind) && ts[1].kind == Identificador
    requires ParameterList(ts, 2) == Ok(pl) && Block(ts, pl) == Ok(b) && b < |ts| && ts[b].kind == Eof
    ensures Program(ts) == Ok(b + 1)
  {
    FunDeclOf(ts, 0, pl, b);
    assert FunDeclList(ts, b) == Ok(b);
    assert FunDeclList(ts, 0) == Ok(b);
    assert Eat(ts, b, Eof) == Ok(b + 1);
  }

  /** A return type, a name, a parameter list and a block make a function
      declaration. */
  lemma {:induction false} FunDeclOf(ts: seq<Token>, i: nat, pl: nat, b: nat)
    requires i + 1 < |ts| && IsReturnType(ts[i].kind) && ts[i + 1].kind == Identificador
    requires ParameterList(ts, i + 2) == Ok(pl) && Block(ts, pl) == Ok(b)
    ensures FunDecl(ts, i) == Ok(b)
  {
    assert Eat(ts, i, Peek(ts, i)) == Ok(i + 1);
    assert Eat(ts, i + 1, Identificador) == Ok(i + 2);
  }

  /** `()` as a parameter list. */
  lemma {:induction false} NoParameters(ts: seq<Token>, i: nat)
    requires i + 1 < |ts| && ts[i].kind == ParenteseEsq && ts[i + 1].kind == ParenteseDir
    ensures ParameterList(ts, i) == Ok(i + 2)
  {
    assert Parameters(ts, i + 1) == Ok(i + 1);
  }

  /** `int main(){int x=5;}` is accepted and consumed up to the end of input. */
  lemma {:induction false} DeclarationInMain(ts: seq<Token>)
    requires |ts| == 12 && ts[0].kind == Int && ts[1].kind == Identificador
    requires ts[2].kind == ParenteseEsq && ts[3].kind == ParenteseDir && ts[4].kind == ChaveEsq
    requires ts[5].kind == Int && ts[6].kind == Identificador && ts[7].kind == Atribuir && ts[8].kind == Numero
    requires ts[9].kind == PontoVirgula && ts[10].kind == ChaveDir && ts[11].kind == Eof
    ensures Program(ts) == Ok(12)
  {
    NoParameters(ts, 2);
    LoneOperand(ts, 8);
    assert Statement(ts, 5) == Ok(9);
    OneStatementBlock(ts, 4, 9);
    OneFunction(ts, 4, 11);
  }

  /** `int main(){` fails at the end of input, expecting `}`. */
  lemma {:induction false} UnclosedMain(ts: seq<Token>)
    requires |ts| == 6 && ts[0].kind == Int && ts[1].kind == Identificador
    requires ts[2].kind == ParenteseEsq && ts[3].kind == ParenteseDir && ts[4].kind == ChaveEsq && ts[5].kind == Eof
    ensures Program(ts) == Err(SynErr(Expected(ChaveDir), Eof, ts[5].at))
  {
    NoParameters(ts, 2);
    assert StatementList(ts, 5) == Ok(5);
    assert Block(ts, 4) == Err(SynErr(Expected(ChaveDir), Eof, ts[5].at));
    assert FunDecl(ts, 0) == Block(ts, 4);
  }

  /** `if(x<=5){}else{}` is one statement. */
  lemma {:induction false} IfElseStatement(ts: seq<Token>)
    requires |ts| == 12 && ts[0].kind == If && ts[1].kind == ParenteseEsq
    requires ts[2].kind == Identificador && ts[3].kind == MenorIgual && ts[4].kind == Numero && ts[5].kind == ParenteseDir
    requires ts[6].kind == ChaveEsq && ts[7].kind == ChaveDir && ts[8].kind == Else
    requires ts[9].kind == ChaveEsq && ts[10].kind == ChaveDir && ts[11].kind == Eof
    ensures Statement(ts, 0) == Ok(11)
  {
    BinaryOperation(ts, 2);
    assert Condition(ts, 1) == Ok(6);
    EmptyBlock(ts, 6);
    EmptyBlock(ts, 9);
    assert ElsePart(ts, 8) == Ok(11);
    assert IfStatement(ts, 0) == Ok(11);
  }

  /** `foo();` is a call statement: the `;` is left to the statement list. */
  lemma {:induction false} CallThenSemicolon(ts: seq<Token>)
    requires |ts| == 4 && ts[0].kind == Identificador && ts[1].kind == ParenteseEsq
    requires ts[2].kind == ParenteseDir && ts[3].kind == PontoVirgula
    ensures Statement(ts, 0) == Ok(3)
  {
    assert Arguments(ts, 2) == Ok(2);
    assert CallStatement(ts, 0) == Ok(3);
  }

  /** `foo = 1;` is an assignment. */
  lemma {:induction false} AssignmentThenSemicolon(ts: seq<Token>)
    requires |ts| == 4 && ts[0].kind == Identificador && ts[1].kind == Atribuir
    requires ts[2].kind == Numero && ts[3].kind == PontoVirgula
    ensures Statement(ts, 0) == Ok(3)
  {
    LoneOperand(ts, 2);
    assert Assignment(ts, 0) == Ok(3);
  }

  /** `x = 1;` outside a function is refused: a return type was expected. */
  lemma {:induction false} StatementAtTopLevel(ts: seq<Token>)
    requires |ts| == 5 && ts[0].kind == Identificador && ts[1].kind == Atribuir
    requires ts[2].kind == Numero && ts[3].kind == PontoVirgula && ts[4].kind == Eof
    ensures Program(ts) == Err(SynErr(ReturnType, Identificador, ts[0].at))
  {
  }

  /** `void f(int a, x b){ return; }`: the second parameter's type is a name,
      and the function is still accepted. */
  lemma {:induction false} NameAsParameterType(ts: seq<Token>)
    requires |ts| == 14 && ts[0].kind == Void && ts[1].kind == Identificador
    requires ts[2].kind == ParenteseEsq && ts[3].kind == Int && ts[4].kind == Identificador && ts[5].kind == Virgula
    requires ts[6].kind == Identificador && ts[7].kind == Identificador && ts[8].kind == ParenteseDir
    requires ts[9].kind == ChaveEsq && ts[10].kind == Return && ts[11].kind == PontoVirgula
    requires ts[12].kind == ChaveDir && ts[13].kind == Eof
    ensures Program(ts) == Ok(14)
  {
    assert ParamRest(ts, 8) == Ok(8);
    assert ParamRest(ts, 5) == Ok(8);
    assert Parameters(ts, 3) == Ok(8);
    assert ParameterList(ts, 2) == Ok(9);
    assert Statement(ts, 10) == Ok(11);
    OneStatementBlock(ts, 9, 11);
    OneFunction(ts, 9, 13);
  }

  /** A name, `=` and an expression make an assignment. */
  lemma {:induction false} AssignmentOf(ts: seq<Token>, i: nat, j: nat)
    requires i + 1 < |ts| && ts[i].kind == Identificador && ts[i + 1].kind == Atribuir
    requires Expression(ts, i + 2) == Ok(j)
    ensures Assignment(ts, i) == Ok(j)
  {
    assert Eat(ts, i, Identificador) == Ok(i + 1);
    assert Eat(ts, i + 1, Atribuir) == Ok(i + 2);
  }

  /** The `for` header after its initialiser, from the first `;` to the
      block. */
  lemma {:induction false} ForAfterInitOf(ts: seq<Token>, i: nat, c: nat, a: nat, b: nat)
    requires i < |ts| && ts[i].kind == PontoVirgula && Expression(ts, i + 1) == Ok(c)
    requires c < |ts| && ts[c].kind == PontoVirgula && Assignment(ts, c + 1) == Ok(a)
    requires a < |ts| && ts[a].kind == ParenteseDir && Block(ts, a + 1) == Ok(b)
    ensures ForAfterInit(ts, i) == Ok(b)
  {
    assert Eat(ts, i, PontoVirgula) == Ok(i + 1);
    assert Eat(ts, c, PontoVirgula) == Ok(c + 1);
    assert Eat(ts, a, ParenteseDir) == Ok(a + 1);
  }

  /** `for (`, an initialiser and the rest of the header and the block. */
  lemma {:induction false} ForStatementOf(ts: seq<Token>, i: nat, c: nat, b: nat)
    requires i + 1 < |ts| && ts[i].kind == For && ts[i + 1].kind == ParenteseEsq
    requires ForInit(ts, i + 2) == Ok(c) && ForAfterInit(ts, c) == Ok(b)
    ensures Statement(ts, i) == Ok(b)
  {
    assert Eat(ts, i, For) == Ok(i + 1);
    assert Eat(ts, i + 1, ParenteseEsq) == Ok(i + 2);
    assert ForStatement(ts, i) == Ok(b);
  }

  /** `for(i=0; i<3; i=i+1){}` as a statement. */
  lemma {:induction false} ForLoop(ts: seq<Token>)
    requires |ts| == 18 && ts[0].kind == For && ts[1].kind == ParenteseEsq
    requires ts[2].kind == Identificador && ts[3].kind == Atribuir && ts[4].kind == Numero && ts[5].kind == PontoVirgula
    requires ts[6].kind == Identificador && ts[7].kind == Menor && ts[8].kind == Numero && ts[9].kind == PontoVirgula
    requires ts[10].kind == Identificador && ts[11].kind == Atribuir && ts[12].kind == Identificador
    requires ts[13].kind == Soma && ts[14].kind == Numero && ts[15].kind == ParenteseDir
    requires ts[16].kind == ChaveEsq && ts[17].kind == ChaveDir
    ensures Statement(ts, 0) == Ok(18)
  {
    LoneOperand(ts, 4);
    AssignmentOf(ts, 2, 5);
    assert ForInit(ts, 2) == Ok(5);
    BinaryOperation(ts, 6);
    BinaryOperation(ts, 12);
    AssignmentOf(ts, 10, 15);
    EmptyBlock(ts, 16);
    ForAfterInitOf(ts, 5, 9, 15, 18);
    ForStatementOf(ts, 0, 5, 18);
  }

  /** `void x` is a declaration statement: unlike a `for` initialiser, a
      statement may begin with `void`. */
  lemma {:induction false} VoidDeclarationStatement(ts: seq<Token>, i: nat)
    requires i + 1 < |ts| && ts[i].kind == Void && ts[i + 1].kind == Identificador && Peek(ts, i + 2) != Atribuir
    ensures Statement(ts, i) == Ok(i + 2)
  {
    assert Declaration(ts, i) == Ok(i + 2);
  }

  /** `{x=1 y=2}`: the `;` between statements may be left out. */
  lemma {:induction false} TwoStatementsNoSemicolon(ts: seq<Token>)
    requires |ts| == 8 && ts[0].kind == ChaveEsq
    requires ts[1].kind == Identificador && ts[2].kind == Atribuir && ts[3].kind == Numero
    requires ts[4].kind == Identificador && ts[5].kind == Atribuir && ts[6].kind == Numero
    requires ts[7].kind == ChaveDir
    ensures Block(ts, 0) == Ok(8)
  {
    LoneOperand(ts, 3);
    assert Assignment(ts, 1) == Ok(4);
    assert Statement(ts, 1) == Ok(4);
    GrammarFacts.StatementListStep(ts, 1, 4);
    LoneOperand(ts, 6);
    assert Assignment(ts, 4) == Ok(7);
    assert Statement(ts, 4) == Ok(7);
    GrammarFacts.StatementListStep(ts, 4, 7);
    assert StatementList(ts, 7) == Ok(7);
    assert StatementList(ts, 1) == Ok(7);
  }
}
