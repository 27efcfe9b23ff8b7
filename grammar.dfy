/** The recursive-descent recognizer as functions. Each nonterminal takes the
    token list and the index of the current token and returns the index after
    what it consumed, or the first syntax error. Every `while` of the parser
    becomes a `...Rest` function that calls itself after each round. Past the
    end of the list the current token is a virtual end of input without a
    position, as the parser's `_advance` makes it. */
module Grammar {
  import opened Tokens

  /** The current token at index `i`. */
  function Current(ts: seq<Token>, i: nat): Token {
    if i < |ts| then ts[i] else Token(Eof, None, None)
  }

  /** The category of the current token. */
  function Peek(ts: seq<Token>, i: nat): Kind {
    Current(ts, i).kind
  }

  /** Why a parse stopped: a specific category was expected, or the token
      could not begin a return type, a statement or a factor. */
  datatype Reason = Expected(kind: Kind) | ReturnType | BadStatement | BadFactor

  /** A syntax error: the reason, the category found and the current token's
      position (absent for the virtual end of input). */
  datatype SynErr = SynErr(reason: Reason, found: Kind, at: Option<Pos>)

  type Parsed = Result<nat, SynErr>

  /** The error raised at the current token. */
  function Fail(ts: seq<Token>, i: nat, reason: Reason): (r: Parsed)
    ensures r.Err? && r.error.found == Peek(ts, i) && r.error.at == Current(ts, i).at && r.error.reason == reason
  {
    Err(SynErr(reason, Peek(ts, i), Current(ts, i).at))
  }

  /** `_eat`: consume the current token if it has category `k`. */
  function Eat(ts: seq<Token>, i: nat, k: Kind): (r: Parsed)
    ensures r.Ok? <==> Peek(ts, i) == k
    ensures r.Ok? ==> r.value == i + 1 && (k != Eof ==> i < |ts|)
    ensures r.Err? ==> r.error == SynErr(Expected(k), Peek(ts, i), Current(ts, i).at)
  {
    if Peek(ts, i) == k then Ok(i + 1) else Fail(ts, i, Expected(k))
  }

  /** The type keywords a parameter, a declaration or a `for` initialiser
      may start with. */
  predicate IsType(k: Kind) {
    k == Int || k == Float || k == String || k == Bool
  }

  /** The categories a function's return type or a declaration statement may
      start with: the types and `void`. */
  predicate IsReturnType(k: Kind) {
    IsType(k) || k == Void
  }

  /** The operators of the `expression` level: additive and relational, one
      tier. */
  predicate IsAddOp(k: Kind) {
    k == Soma || k == Subtracao || k == Igual || k == Diferente ||
    k == Menor || k == Maior || k == MenorIgual || k == MaiorIgual
  }

  /** The operators of the `term` level. */
  predicate IsMulOp(k: Kind) {
    k == Multiplicacao || k == Divisao
  }

  /** The two-token lookahead: an identifier directly followed by an opening
      parenthesis in the real token list starts a call. */
  predicate CallAhead(ts: seq<Token>, i: nat) {
    i + 1 < |ts| && ts[i + 1].kind == ParenteseEsq
  }

  /** Which kinds of statement a category starts. */
  predicate StartsStatement(k: Kind) {
    IsReturnType(k) || k == Identificador || k == If || k == While || k == For || k == Return
  }

  // ---------------------------------------------------------------------
  // Programs and function declarations.

  /** `program`: function declarations up to the end of input, then the end
      of input itself. */
  function Program(ts: seq<Token>): (r: Parsed)
    ensures r.Ok? ==> 1 <= r.value <= |ts| + 1
  {
    match FunDeclList(ts, 0)
    case Err(e) => Err(e)
    case Ok(j) => Eat(ts, j, Eof)
  }

  /** `function_declaration_list`: declarations while the current token is
      not the end of input. */
  function FunDeclList(ts: seq<Token>, i: nat): (r: Parsed)
    requires i <= |ts|
    ensures r.Ok? ==> i <= r.value <= |ts| && Peek(ts, r.value) == Eof
    decreases |ts| - i, 2
  {
    if Peek(ts, i) == Eof then Ok(i)
    else match FunDecl(ts, i)
      case Err(e) => Err(e)
      case Ok(j) => FunDeclList(ts, j)
  }

  /** `function_declaration`: return type, name, parenthesised parameters and
      a block. */
  function FunDecl(ts: seq<Token>, i: nat): (r: Parsed)
    requires i <= |ts|
    ensures r.Ok? ==> i < r.value <= |ts| && IsReturnType(Peek(ts, i))
    ensures !IsReturnType(Peek(ts, i)) ==> r == Fail(ts, i, ReturnType)
    decreases |ts| - i, 1
  {
    if !IsReturnType(Peek(ts, i)) then Fail(ts, i, ReturnType)
    else match Eat(ts, i, Peek(ts, i))
      case Err(e) => Err(e)
      case Ok(j0) =>
      match Eat(ts, j0, Identificador)
      case Err(e) => Err(e)
      case Ok(j1) =>
        match ParameterList(ts, j1)
        case Err(e) => Err(e)
        case Ok(j2) => Block(ts, j2)
  }

  /** The parenthesised parameters of a function declaration. */
  function ParameterList(ts: seq<Token>, i: nat): (r: Parsed)
    requires i <= |ts|
    ensures r.Ok? ==> i + 2 <= r.value <= |ts|
    decreases |ts| - i, 4
  {
    match Eat(ts, i, ParenteseEsq)
    case Err(e) => Err(e)
    case Ok(j1) =>
      match Parameters(ts, j1)
      case Err(e) => Err(e)
      case Ok(j2) => Eat(ts, j2, ParenteseDir)
  }

  /** `parameters`: empty, or parameters separated by commas when the first
      token is a type. */
  function Parameters(ts: seq<Token>, i: nat): (r: Parsed)
    requires i <= |ts|
    ensures r.Ok? ==> i <= r.value <= |ts|
    ensures r.Ok? && r.value != i ==> Peek(ts, r.value) != Virgula
    ensures !IsType(Peek(ts, i)) ==> r == Ok(i)
    decreases |ts| - i, 3
  {
    if IsType(Peek(ts, i)) then
      match Parameter(ts, i)
      case Err(e) => Err(e)
      case Ok(j) => ParamRest(ts, j)
    else Ok(i)
  }

  /** The loop of `parameters`: a comma, then another parameter. */
  function ParamRest(ts: seq<Token>, i: nat): (r: Parsed)
    requires i <= |ts|
    ensures r.Ok? ==> i <= r.value <= |ts| && Peek(ts, r.value) != Virgula
    decreases |ts| - i, 2
  {
    if Peek(ts, i) == Virgula then
      match Eat(ts, i, Virgula)
      case Err(e) => Err(e)
      case Ok(j1) =>
        match Parameter(ts, j1)
        case Err(e) => Err(e)
        case Ok(j) => ParamRest(ts, j)
    else Ok(i)
  }

  /** `parameter`: the current token, whatever its category, then a name. */
  function Parameter(ts: seq<Token>, i: nat): (r: Parsed)
    requires i <= |ts| + 1
    ensures r.Ok? <==> i + 1 < |ts| && ts[i + 1].kind == Identificador
    ensures r.Ok? ==> r.value == i + 2
  {
    match Eat(ts, i, Peek(ts, i))
    case Err(e) => Err(e)
    case Ok(j) => Eat(ts, j, Identificador)
  }

  /** `block`: a statement list between braces. */
  function Block(ts: seq<Token>, i: nat): (r: Parsed)
    requires i <= |ts|
    ensures r.Ok? ==> i + 2 <= r.value <= |ts|
    decreases |ts| - i, 20
  {
    match Eat(ts, i, ChaveEsq)
    case Err(e) => Err(e)
    case Ok(j) =>
      match StatementList(ts, j)
      case Err(e) => Err(e)
      case Ok(k) => Eat(ts, k, ChaveDir)
  }

  // ---------------------------------------------------------------------
  // Statements.

  /** `statement_list`: statements, each optionally followed by one `;`,
      until a closing brace or the end of input. */
  function StatementList(ts: seq<Token>, i: nat): (r: Parsed)
    requires i <= |ts|
    ensures r.Ok? ==> i <= r.value <= |ts| && (Peek(ts, r.value) == ChaveDir || Peek(ts, r.value) == Eof)
    decreases |ts| - i, 19
  {
    if Peek(ts, i) == ChaveDir || Peek(ts, i) == Eof then Ok(i)
    else match Statement(ts, i)
      case Err(e) => Err(e)
      case Ok(j) =>
        if Peek(ts, j) == PontoVirgula then
          match Eat(ts, j, PontoVirgula)
          case Err(e) => Err(e)
          case Ok(k) => StatementList(ts, k)
        else StatementList(ts, j)
  }

  /** `statement`: chosen by the current category; an identifier starts a
      call when `(` follows it and an assignment otherwise. */
  function Statement(ts: seq<Token>, i: nat): (r: Parsed)
    requires i <= |ts|
    ensures r.Ok? ==> i < r.value <= |ts|
    ensures !StartsStatement(Peek(ts, i)) ==> r == Fail(ts, i, BadStatement)
    decreases |ts| - i, 18
  {
    var k := Peek(ts, i);
    if IsReturnType(k) then Declaration(ts, i)
    else if k == Identificador then
      if CallAhead(ts, i) then CallStatement(ts, i) else Assignment(ts, i)
    else if k == If then IfStatement(ts, i)
    else if k == While then WhileStatement(ts, i)
    else if k == For then ForStatement(ts, i)
    else if k == Return then ReturnStatement(ts, i)
    else Fail(ts, i, BadStatement)
  }

  /** `function_call_statement`: a name, then parenthesised arguments. */
  function CallStatement(ts: seq<Token>, i: nat): (r: Parsed)
    requires i <= |ts|
    ensures r.Ok? ==> i + 3 <= r.value <= |ts|
    decreases |ts| - i, 1
  {
    match Eat(ts, i, Identificador)
    case Err(e) => Err(e)
    case Ok(j1) =>
      match Eat(ts, j1, ParenteseEsq)
      case Err(e) => Err(e)
      case Ok(j2) =>
        match Arguments(ts, j2)
        case Err(e) => Err(e)
        case Ok(j3) => Eat(ts, j3, ParenteseDir)
  }

  /** `arguments`: empty before `)`, otherwise expressions separated by
      commas. */
  function Arguments(ts: seq<Token>, i: nat): (r: Parsed)
    requires i <= |ts|
    ensures r.Ok? ==> i <= r.value <= |ts| && Peek(ts, r.value) != Virgula
    ensures Peek(ts, i) == ParenteseDir ==> r == Ok(i)
    decreases |ts| - i, 9
  {
    if Peek(ts, i) != ParenteseDir then
      match Expression(ts, i)
      case Err(e) => Err(e)
      case Ok(j) => ArgRest(ts, j)
    else Ok(i)
  }

  /** The loop of `arguments`: a comma, then another expression. */
  function ArgRest(ts: seq<Token>, i: nat): (r: Parsed)
    requires i <= |ts|
    ensures r.Ok? ==> i <= r.value <= |ts| && Peek(ts, r.value) != Virgula
    decreases |ts| - i, 8
  {
    if Peek(ts, i) == Virgula then
      match Eat(ts, i, Virgula)
      case Err(e) => Err(e)
      case Ok(j1) =>
        match Expression(ts, j1)
        case Err(e) => Err(e)
        case Ok(j) => ArgRest(ts, j)
    else Ok(i)
  }

  /** `declaration`: the current token (a type or `void`), a name and an
      optional initialiser. */
  function Declaration(ts: seq<Token>, i: nat): (r: Parsed)
    requires i <= |ts|
    ensures r.Ok? ==> i + 2 <= r.value <= |ts|
    decreases |ts| - i, 10
  {
    match Eat(ts, i, Peek(ts, i))
    case Err(e) => Err(e)
    case Ok(j0) =>
      match Eat(ts, j0, Identificador)
      case Err(e) => Err(e)
      case Ok(j) =>
        if Peek(ts, j) == Atribuir then
          match Eat(ts, j, Atribuir)
          case Err(e) => Err(e)
          case Ok(j2) => Expression(ts, j2)
        else Ok(j)
  }

  /** `assignment`: a name, `=` and an expression. */
  function Assignment(ts: seq<Token>, i: nat): (r: Parsed)
    requires i <= |ts|
    ensures r.Ok? ==> i + 3 <= r.value <= |ts|
    decreases |ts| - i, 10
  {
    match Eat(ts, i, Identificador)
    case Err(e) => Err(e)
    case Ok(j1) =>
      match Eat(ts, j1, Atribuir)
      case Err(e) => Err(e)
      case Ok(j2) => Expression(ts, j2)
  }

  /** `if_statement`: condition, block and an optional `else` block. */
  function IfStatement(ts: seq<Token>, i: nat): (r: Parsed)
    requires i <= |ts|
    ensures r.Ok? ==> i < r.value <= |ts|
    decreases |ts| - i, 10
  {
    match Eat(ts, i, If)
    case Err(e) => Err(e)
    case Ok(j1) =>
      match Condition(ts, j1)
      case Err(e) => Err(e)
      case Ok(j2) =>
        match Block(ts, j2)
        case Err(e) => Err(e)
        case Ok(j3) => ElsePart(ts, j3)
  }

  /** The optional `else` block, taken when `else` is the current token. */
  function ElsePart(ts: seq<Token>, i: nat): (r: Parsed)
    requires i <= |ts|
    ensures r.Ok? ==> i <= r.value <= |ts|
    ensures Peek(ts, i) != Else ==> r == Ok(i)
    decreases |ts| - i, 21
  {
    if Peek(ts, i) == Else then
      match Eat(ts, i, Else)
      case Err(e) => Err(e)
      case Ok(j) => Block(ts, j)
    else Ok(i)
  }

  /** The parenthesised condition of `if` and `while`. */
  function Condition(ts: seq<Token>, i: nat): (r: Parsed)
    requires i <= |ts|
    ensures r.Ok? ==> i + 3 <= r.value <= |ts|
    decreases |ts| - i, 9
  {
    match Eat(ts, i, ParenteseEsq)
    case Err(e) => Err(e)
    case Ok(j1) =>
      match Expression(ts, j1)
      case Err(e) => Err(e)
      case Ok(j2) => Eat(ts, j2, ParenteseDir)
  }

  /** `while_statement`: condition and block. */
  function WhileStatement(ts: seq<Token>, i: nat): (r: Parsed)
    requires i <= |ts|
    ensures r.Ok? ==> i < r.value <= |ts|
    decreases |ts| - i, 10
  {
    match Eat(ts, i, While)
    case Err(e) => Err(e)
    case Ok(j1) =>
      match Condition(ts, j1)
      case Err(e) => Err(e)
      case Ok(j2) => Block(ts, j2)
  }

  /** The optional initialiser of a `for` header: a declaration when a type
      (not `void`) comes first, an assignment when a name does, else nothing. */
  function ForInit(ts: seq<Token>, i: nat): (r: Parsed)
    requires i <= |ts|
    ensures r.Ok? ==> i <= r.value <= |ts|
    ensures !IsType(Peek(ts, i)) && Peek(ts, i) != Identificador ==> r == Ok(i)
    decreases |ts| - i, 11
  {
    if IsType(Peek(ts, i)) then Declaration(ts, i)
    else if Peek(ts, i) == Identificador then Assignment(ts, i)
    else Ok(i)
  }

  /** `for_statement`: `(`, optional initialiser, then the rest of the
      header and the block. */
  function ForStatement(ts: seq<Token>, i: nat): (r: Parsed)
    requires i <= |ts|
    ensures r.Ok? ==> i < r.value <= |ts|
    decreases |ts| - i, 12
  {
    match Eat(ts, i, For)
    case Err(e) => Err(e)
    case Ok(j1) =>
      match Eat(ts, j1, ParenteseEsq)
      case Err(e) => Err(e)
      case Ok(j2) =>
        match ForInit(ts, j2)
        case Err(e) => Err(e)
        case Ok(j3) => ForAfterInit(ts, j3)
  }

  /** The `for` header after the initialiser: `;`, condition, `;`,
      assignment and `)`, then the block. */
  function ForAfterInit(ts: seq<Token>, i: nat): (r: Parsed)
    requires i <= |ts|
    ensures r.Ok? ==> i < r.value <= |ts|
    ensures Peek(ts, i) != PontoVirgula ==> r == Fail(ts, i, Expected(PontoVirgula))
    decreases |ts| - i, 21
  {
    match Eat(ts, i, PontoVirgula)
    case Err(e) => Err(e)
    case Ok(j4) =>
      match Expression(ts, j4)
      case Err(e) => Err(e)
      case Ok(j5) =>
        match Eat(ts, j5, PontoVirgula)
        case Err(e) => Err(e)
        case Ok(j6) =>
          match Assignment(ts, j6)
          case Err(e) => Err(e)
          case Ok(j7) =>
            match Eat(ts, j7, ParenteseDir)
            case Err(e) => Err(e)
            case Ok(j8) => Block(ts, j8)
  }

  /** `return_statement`: `return`, then an expression unless `;` follows. */
  function ReturnStatement(ts: seq<Token>, i: nat): (r: Parsed)
    requires i <= |ts|
    ensures r.Ok? ==> i < r.value <= |ts|
    ensures Peek(ts, i) == Return && Peek(ts, i + 1) == PontoVirgula ==> r == Ok(i + 1)
    decreases |ts| - i, 10
  {
    match Eat(ts, i, Return)
    case Err(e) => Err(e)
    case Ok(j) =>
      if Peek(ts, j) != PontoVirgula then Expression(ts, j) else Ok(j)
  }

  // ---------------------------------------------------------------------
  // Expressions.

  /** `expression`: terms joined by additive or relational operators, all on
      one tier; it stops only where no such operator follows. */
  function Expression(ts: seq<Token>, i: nat): (r: Parsed)
    requires i <= |ts|
    ensures r.Ok? ==> i < r.value <= |ts| && !IsAddOp(Peek(ts, r.value)) && !IsMulOp(Peek(ts, r.value))
    decreases |ts| - i, 7
  {
    match Term(ts, i)
    case Err(e) => Err(e)
    case Ok(j) => ExprRest(ts, j)
  }

  /** The loop of `expression`: an operator, then another term. */
  function ExprRest(ts: seq<Token>, i: nat): (r: Parsed)
    requires i <= |ts|
    ensures r.Ok? ==> i <= r.value <= |ts| && !IsAddOp(Peek(ts, r.value))
    ensures r.Ok? && r.value != i ==> !IsMulOp(Peek(ts, r.value))
    decreases |ts| - i, 6
  {
    if IsAddOp(Peek(ts, i)) then
      match Eat(ts, i, Peek(ts, i))
      case Err(e) => Err(e)
      case Ok(j1) =>
        match Term(ts, j1)
        case Err(e) => Err(e)
        case Ok(j) => ExprRest(ts, j)
    else Ok(i)
  }

  /** `term`: factors joined by `*` or `/`. */
  function Term(ts: seq<Token>, i: nat): (r: Parsed)
    requires i <= |ts|
    ensures r.Ok? ==> i < r.value <= |ts| && !IsMulOp(Peek(ts, r.value))
    decreases |ts| - i, 5
  {
    match Factor(ts, i)
    case Err(e) => Err(e)
    case Ok(j) => TermRest(ts, j)
  }

  /** The loop of `term`: an operator, then another factor. */
  function TermRest(ts: seq<Token>, i: nat): (r: Parsed)
    requires i <= |ts|
    ensures r.Ok? ==> i <= r.value <= |ts| && !IsMulOp(Peek(ts, r.value))
    decreases |ts| - i, 4
  {
    if IsMulOp(Peek(ts, i)) then
      match Eat(ts, i, Peek(ts, i))
      case Err(e) => Err(e)
      case Ok(j1) =>
        match Factor(ts, j1)
        case Err(e) => Err(e)
        case Ok(j) => TermRest(ts, j)
    else Ok(i)
  }

  /** `factor`: a number, a string, `true` or `false`, a variable, a call
      (when `(` follows the name) or a parenthesised expression. */
  function Factor(ts: seq<Token>, i: nat): (r: Parsed)
    requires i <= |ts|
    ensures r.Ok? ==> i < r.value <= |ts|
    ensures Peek(ts, i) == Identificador && !CallAhead(ts, i) ==> r == Ok(i + 1)
    decreases |ts| - i, 3
  {
    var k := Peek(ts, i);
    if k == Numero then Eat(ts, i, Numero)
    else if k == Identificador then
      if CallAhead(ts, i) then CallStatement(ts, i) else Eat(ts, i, Identificador)
    else if k == ParenteseEsq then
      match Eat(ts, i, ParenteseEsq)
      case Err(e) => Err(e)
      case Ok(j1) =>
        match Expression(ts, j1)
        case Err(e) => Err(e)
        case Ok(j) => Eat(ts, j, ParenteseDir)
    else if k == String then Eat(ts, i, String)
    else if k == True || k == False then Eat(ts, i, k)
    else Fail(ts, i, BadFactor)
  }
}
