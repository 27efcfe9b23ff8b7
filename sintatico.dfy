/** The parser object: the token list, the index of the current token and
    the current token itself, which every consumed token advances. Each
    method of the grammar returns `None` when its construct was recognised
    and the first syntax error otherwise (where the parser raises an
    exception); its result and final index are proved to be those of the
    recognizer function of the same construct in `Grammar`. */
module Sintatico {
  import opened Tokens
  import opened Grammar

  /** A method's outcome as a recognizer value: the index reached on
      success, the error otherwise. */
  function Outcome(err: Option<SynErr>, index: nat): (r: Parsed)
    ensures r.Ok? <==> err.None?
    ensures err.None? ==> r.value == index
    ensures err.Some? ==> r.error == err.value
  {
    match err
    case None => Ok(index)
    case Some(e) => Err(e)
  }

  class Parser {
    const tokens: seq<Token>
    var index: nat
    var current: Token

    /** The current token is the one at `index`, or the virtual end of input
        once `index` is past the list. */
    predicate Valid()
      reads this
    {
      current == Current(tokens, index)
    }

    /** A parser on `tokens`, at the first one (which the parser reads at
        once, so the list may not be empty). */
    constructor(tokens: seq<Token>)
      requires |tokens| > 0
      ensures this.tokens == tokens && index == 0 && current == tokens[0]
      ensures Valid()
    {
      this.tokens := tokens;
      index := 0;
      current := tokens[0];
    }

    /** `_advance`: one token on; past the list the current token becomes an
        end-of-input token with neither value nor position. */
    method Advance()
      requires Valid()
      modifies this
      ensures index == old(index) + 1
      ensures index < |tokens| ==> current == tokens[index]
      ensures index >= |tokens| ==> current == Token(Eof, None, None)
      ensures Valid()
    {
      index := index + 1;
      if index < |tokens| {
        current := tokens[index];
      } else {
        current := Token(Eof, None, None);
      }
    }

    /** `_error`: the error at the current token, with its category and
        position. */
    method Error(reason: Reason) returns (e: SynErr)
      requires Valid()
      ensures e == SynErr(reason, current.kind, current.at)
      ensures Err(e) == Fail(tokens, index, reason)
    {
      e := SynErr(reason, current.kind, current.at);
    }

    /** `_eat`: advance past the current token if it has category `kind`,
        otherwise fail there expecting `kind`. */
    method Eat(kind: Kind) returns (err: Option<SynErr>)
      requires Valid()
      modifies this
      ensures Valid()
      ensures Outcome(err, index) == Grammar.Eat(tokens, old(index), kind)
      ensures err.Some? ==> index == old(index)
    {
      if current.kind == kind {
        Advance();
        err := None;
      } else {
        var e := Error(Expected(kind));
        err := Some(e);
      }
    }

    /** `program`: the function declarations, then the end of input. */
    method Program() returns (err: Option<SynErr>)
      requires Valid() && index == 0
      modifies this
      ensures Valid()
      ensures Outcome(err, index) == Grammar.Program(tokens)
    {
      err := FunctionDeclarationList();
      if err.Some? {
        return;
      }
      err := Eat(Eof);
    }

    /** `function_declaration_list`. */
    method FunctionDeclarationList() returns (err: Option<SynErr>)
      requires Valid() && index <= |tokens|
      modifies this
      ensures Valid()
      ensures Outcome(err, index) == FunDeclList(tokens, old(index))
      decreases |tokens| - index, 2
    {
      while current.kind != Eof
        invariant Valid() && old(index) <= index <= |tokens|
        invariant FunDeclList(tokens, old(index)) == FunDeclList(tokens, index)
        decreases |tokens| - index
      {
        err := FunctionDeclaration();
        if err.Some? {
          return;
        }
      }
      err := None;
    }

    /** `function_declaration`. */
    method FunctionDeclaration() returns (err: Option<SynErr>)
      requires Valid() && index <= |tokens|
      modifies this
      ensures Valid()
      ensures Outcome(err, index) == FunDecl(tokens, old(index))
      decreases |tokens| - index, 1
    {
      if !IsReturnType(current.kind) {
        var e := Error(ReturnType);
        return Some(e);
      }
      err := Eat(current.kind);
      if err.Some? {
        return;
      }
      err := Eat(Identificador);
      if err.Some? {
        return;
      }
      ghost var lists := index;
      err := Eat(ParenteseEsq);
      if err.Some? {
        return;
      }
      err := Parameters();
      if err.Some? {
        return;
      }
      err := Eat(ParenteseDir);
      if err.Some? {
        return;
      }
      assert ParameterList(tokens, lists) == Ok(index);
      err := Block();
    }

    /** `parameters`. */
    method Parameters() returns (err: Option<SynErr>)
      requires Valid() && index <= |tokens|
      modifies this
      ensures Valid()
      ensures Outcome(err, index) == Grammar.Parameters(tokens, old(index))
      decreases |tokens| - index, 3
    {
      if IsType(current.kind) {
        err := Parameter();
        if err.Some? {
          return;
        }
        while current.kind == Virgula
          invariant Valid() && old(index) < index <= |tokens|
          invariant Grammar.Parameters(tokens, old(index)) == ParamRest(tokens, index)
          decreases |tokens| - index
        {
          err := Eat(Virgula);
          if err.Some? {
            return;
          }
          err := Parameter();
          if err.Some? {
            return;
          }
        }
      }
      err := None;
    }

    /** `parameter`: whatever the current token is, then a name. */
    method Parameter() returns (err: Option<SynErr>)
      requires Valid() && index <= |tokens|
      modifies this
      ensures Valid()
      ensures Outcome(err, index) == Grammar.Parameter(tokens, old(index))
    {
      err := Eat(current.kind);
      if err.Some? {
        return;
      }
      err := Eat(Identificador);
    }

    /** `block`. */
    method Block() returns (err: Option<SynErr>)
      requires Valid() && index <= |tokens|
      modifies this
      ensures Valid()
      ensures Outcome(err, index) == Grammar.Block(tokens, old(index))
      decreases |tokens| - index, 20
    {
      err := Eat(ChaveEsq);
      if err.Some? {
        return;
      }
      err := StatementList();
      if err.Some? {
        return;
      }
      err := Eat(ChaveDir);
    }

    /** `statement_list`. */
    method StatementList() returns (err: Option<SynErr>)
      requires Valid() && index <= |tokens|
      modifies this
      ensures Valid()
      ensures Outcome(err, index) == Grammar.StatementList(tokens, old(index))
      decreases |tokens| - index, 19
    {
      while current.kind != ChaveDir && current.kind != Eof
        invariant Valid() && old(index) <= index <= |tokens|
        invariant Grammar.StatementList(tokens, old(index)) == Grammar.StatementList(tokens, index)
        decreases |tokens| - index
      {
        err := Statement();
        if err.Some? {
          return;
        }
        if current.kind == PontoVirgula {
          err := Eat(PontoVirgula);
          if err.Some? {
            return;
          }
        }
      }
      err := None;
    }

    /** `statement`, with the two-token lookahead on names. */
    method Statement() returns (err: Option<SynErr>)
      requires Valid() && index <= |tokens|
      modifies this
      ensures Valid()
      ensures Outcome(err, index) == Grammar.Statement(tokens, old(index))
      decreases |tokens| - index, 18
    {
      if IsReturnType(current.kind) {
        err := Declaration();
      } else if current.kind == Identificador {
        if index + 1 < |tokens| && tokens[index + 1].kind == ParenteseEsq {
          err := FunctionCallStatement();
        } else {
          err := Assignment();
        }
      } else if current.kind == If {
        err := IfStatement();
      } else if current.kind == While {
        err := WhileStatement();
      } else if current.kind == For {
        err := ForStatement();
      } else if current.kind == Return {
        err := ReturnStatement();
      } else {
        var e := Error(BadStatement);
        err := Some(e);
      }
    }

    /** `function_call_statement`. */
    method FunctionCallStatement() returns (err: Option<SynErr>)
      requires Valid() && index <= |tokens|
      modifies this
      ensures Valid()
      ensures Outcome(err, index) == CallStatement(tokens, old(index))
      decreases |tokens| - index, 1
    {
      err := Eat(Identificador);
      if err.Some? {
        return;
      }
      err := Eat(ParenteseEsq);
      if err.Some? {
        return;
      }
      err := Arguments();
      if err.Some? {
        return;
      }
      err := Eat(ParenteseDir);
    }

    /** `arguments`. */
    method Arguments() returns (err: Option<SynErr>)
      requires Valid() && index <= |tokens|
      modifies this
      ensures Valid()
      ensures Outcome(err, index) == Grammar.Arguments(tokens, old(index))
      decreases |tokens| - index, 9
    {
      if current.kind != ParenteseDir {
        err := Expression();
        if err.Some? {
          return;
        }
        while current.kind == Virgula
          invariant Valid() && old(index) < index <= |tokens|
          invariant Grammar.Arguments(tokens, old(index)) == ArgRest(tokens, index)
          decreases |tokens| - index
        {
          err := Eat(Virgula);
          if err.Some? {
            return;
          }
          err := Expression();
          if err.Some? {
            return;
          }
        }
      }
      err := None;
    }

    /** `declaration`. */
    method Declaration() returns (err: Option<SynErr>)
      requires Valid() && index <= |tokens|
      modifies this
      ensures Valid()
      ensures Outcome(err, index) == Grammar.Declaration(tokens, old(index))
      decreases |tokens| - index, 10
    {
      err := Eat(current.kind);
      if err.Some? {
        return;
      }
      err := Eat(Identificador);
      if err.Some? {
        return;
      }
      if current.kind == Atribuir {
        err := Eat(Atribuir);
        if err.Some? {
          return;
        }
        err := Expression();
      }
    }

    /** `assignment`. */
    method Assignment() returns (err: Option<SynErr>)
      requires Valid() && index <= |tokens|
      modifies this
      ensures Valid()
      ensures Outcome(err, index) == Grammar.Assignment(tokens, old(index))
      decreases |tokens| - index, 10
    {
      err := Eat(Identificador);
      if err.Some? {
        return;
      }
      err := Eat(Atribuir);
      if err.Some? {
        return;
      }
      err := Expression();
    }

    /** `if_statement`. */
    method IfStatement() returns (err: Option<SynErr>)
      requires Valid() && index <= |tokens|
      modifies this
      ensures Valid()
      ensures Outcome(err, index) == Grammar.IfStatement(tokens, old(index))
      decreases |tokens| - index, 10
    {
      err := Eat(If);
      if err.Some? {
        return;
      }
      ghost var condition := index;
      err := Eat(ParenteseEsq);
      if err.Some? {
        return;
      }
      err := Expression();
      if err.Some? {
        return;
      }
      err := Eat(ParenteseDir);
      if err.Some? {
        return;
      }
      assert Condition(tokens, condition) == Ok(index);
      err := Block();
      if err.Some? {
        return;
      }
      ghost var rest := index;
      if current.kind == Else {
        err := Eat(Else);
        if err.Some? {
          return;
        }
        err := Block();
      }
      assert Outcome(err, index) == ElsePart(tokens, rest);
    }

    /** `while_statement`. */
    method WhileStatement() returns (err: Option<SynErr>)
      requires Valid() && index <= |tokens|
      modifies this
      ensures Valid()
      ensures Outcome(err, index) == Grammar.WhileStatement(tokens, old(index))
      decreases |tokens| - index, 10
    {
      err := Eat(While);
      if err.Some? {
        return;
      }
      ghost var condition := index;
      err := Eat(ParenteseEsq);
      if err.Some? {
        return;
      }
      err := Expression();
      if err.Some? {
        return;
      }
      err := Eat(ParenteseDir);
      if err.Some? {
        return;
      }
      assert Condition(tokens, condition) == Ok(index);
      err := Block();
    }

    /** `for_statement`: the initialiser is a declaration after a type (not
        `void`), an assignment after a name, and absent otherwise. */
    method ForStatement() returns (err: Option<SynErr>)
      requires Valid() && index <= |tokens|
      modifies this
      ensures Valid()
      ensures Outcome(err, index) == Grammar.ForStatement(tokens, old(index))
      decreases |tokens| - index, 12
    {
      err := Eat(For);
      if err.Some? {
        return;
      }
      err := Eat(ParenteseEsq);
      if err.Some? {
        return;
      }
      ghost var init := index;
      if IsType(current.kind) {
        err := Declaration();
      } else if current.kind == Identificador {
        err := Assignment();
      }
      assert Outcome(err, index) == ForInit(tokens, init);
      if err.Some? {
        return;
      }
      assert Grammar.ForStatement(tokens, old(index)) == Grammar.ForAfterInit(tokens, index);
      err := ForAfterInit();
    }

    /** The `for` header after the initialiser: `;`, condition, `;`,
        assignment and `)`, then the block. */
    method ForAfterInit() returns (err: Option<SynErr>)
      requires Valid() && index <= |tokens|
      modifies this
      ensures Valid()
      ensures Outcome(err, index) == Grammar.ForAfterInit(tokens, old(index))
      decreases |tokens| - index, 21
    {
      err := Eat(PontoVirgula);
      if err.Some? {
        return;
      }
      err := Expression();
      if err.Some? {
        return;
      }
      err := Eat(PontoVirgula);
      if err.Some? {
        return;
      }
      err := Assignment();
      if err.Some? {
        return;
      }
      err := Eat(ParenteseDir);
      if err.Some? {
        return;
      }
      err := Block();
    }

    /** `return_statement`. */
    method ReturnStatement() returns (err: Option<SynErr>)
      requires Valid() && index <= |tokens|
      modifies this
      ensures Valid()
      ensures Outcome(err, index) == Grammar.ReturnStatement(tokens, old(index))
      decreases |tokens| - index, 10
    {
      err := Eat(Return);
      if err.Some? {
        return;
      }
      if current.kind != PontoVirgula {
        err := Expression();
      }
    }

    /** `expression`: terms joined by the additive and relational operators. */
    method Expression() returns (err: Option<SynErr>)
      requires Valid() && index <= |tokens|
      modifies this
      ensures Valid()
      ensures Outcome(err, index) == Grammar.Expression(tokens, old(index))
      decreases |tokens| - index, 7
    {
      err := Term();
      if err.Some? {
        return;
      }
      while IsAddOp(current.kind)
        invariant Valid() && old(index) < index <= |tokens|
        invariant Grammar.Expression(tokens, old(index)) == ExprRest(tokens, index)
        decreases |tokens| - index
      {
        err := Eat(current.kind);
        if err.Some? {
          return;
        }
        err := Term();
        if err.Some? {
          return;
        }
      }
      err := None;
    }

    /** `term`: factors joined by `*` and `/`. */
    method Term() returns (err: Option<SynErr>)
      requires Valid() && index <= |tokens|
      modifies this
      ensures Valid()
      ensures Outcome(err, index) == Grammar.Term(tokens, old(index))
      decreases |tokens| - index, 5
    {
      err := Factor();
      if err.Some? {
        return;
      }
      while IsMulOp(current.kind)
        invariant Valid() && old(index) < index <= |tokens|
        invariant Grammar.Term(tokens, old(index)) == TermRest(tokens, index)
        decreases |tokens| - index
      {
        err := Eat(current.kind);
        if err.Some? {
          return;
        }
        err := Factor();
        if err.Some? {
          return;
        }
      }
      err := None;
    }

    /** `factor`, with the two-token lookahead on names. */
    method Factor() returns (err: Option<SynErr>)
      requires Valid() && index <= |tokens|
      modifies this
      ensures Valid()
      ensures Outcome(err, index) == Grammar.Factor(tokens, old(index))
      decreases |tokens| - index, 3
    {
      var token := current;
      if token.kind == Numero {
        err := Eat(Numero);
      } else if token.kind == Identificador {
        if index + 1 < |tokens| && tokens[index + 1].kind == ParenteseEsq {
          err := FunctionCallStatement();
        } else {
          err := Eat(Identificador);
        }
      } else if token.kind == ParenteseEsq {
        err := Eat(ParenteseEsq);
        if err.Some? {
          return;
        }
        err := Expression();
        if err.Some? {
          return;
        }
        err := Eat(ParenteseDir);
      } else if token.kind == String {
        err := Eat(String);
      } else if token.kind == True || token.kind == False {
        err := Eat(token.kind);
      } else {
        var e := Error(BadFactor);
        err := Some(e);
      }
    }
  }

  /** `parse` on a fresh parser: the token list is accepted exactly when the
      recognizer accepts it, and a rejection reports the recognizer's error. */
  method Parse(tokens: seq<Token>) returns (err: Option<SynErr>)
    requires |tokens| > 0
    ensures err.None? <==> Grammar.Program(tokens).Ok?
    ensures err.Some? ==> Grammar.Program(tokens) == Err(err.value)
  {
    var parser := new Parser(tokens);
    err := parser.Program();
  }
}
