/** Token categories, source positions and the token record shared by the
    lexer and the parser, plus the Option/Result wrappers both use for their
    error paths. */
module Tokens {

  datatype Option<+T> = None | Some(value: T)

  datatype Result<+T, +E> = Ok(value: T) | Err(error: E)

  /** The closed set of token categories, numbered 0 to 32 and named by the
      constants below, so that telling two categories apart is comparing two
      numbers. The keyword `string` and string literals share the category
      `String`. `Eof` ends every token stream. */
  newtype Kind = k: int | 0 <= k < 33

  const Igual: Kind := 0
  const Diferente: Kind := 1
  const MenorIgual: Kind := 2
  const MaiorIgual: Kind := 3
  const Atribuir: Kind := 4
  const Menor: Kind := 5
  const Maior: Kind := 6
  const Soma: Kind := 7
  const Subtracao: Kind := 8
  const Multiplicacao: Kind := 9
  const Divisao: Kind := 10
  const Numero: Kind := 11
  const String: Kind := 12
  const ParenteseEsq: Kind := 13
  const ParenteseDir: Kind := 14
  const ChaveEsq: Kind := 15
  const ChaveDir: Kind := 16
  const PontoVirgula: Kind := 17
  const Virgula: Kind := 18
  const DoisPontos: Kind := 19
  const Identificador: Kind := 20
  const If: Kind := 21
  const Else: Kind := 22
  const While: Kind := 23
  const For: Kind := 24
  const Int: Kind := 25
  const Float: Kind := 26
  const Bool: Kind := 27
  const True: Kind := 28
  const False: Kind := 29
  const Return: Kind := 30
  const Void: Kind := 31
  const Eof: Kind := 32

  /** A 1-based line and column. */
  datatype Pos = Pos(line: nat, column: nat)

  /** Reading order on positions: earlier line, or same line and earlier column. */
  predicate Lt(p: Pos, q: Pos) {
    p.line < q.line || (p.line == q.line && p.column < q.column)
  }

  predicate Le(p: Pos, q: Pos) {
    Lt(p, q) || p == q
  }

  /** A token: its category, the matched text (absent for end of input) and the
      position of its first character (absent for the parser's virtual end of
      input). */
  datatype Token = Token(kind: Kind, value: Option<string>, at: Option<Pos>)
}
