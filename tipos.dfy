/** Value types of the game catalog: optional values (Java's null), calendar
    dates, the game record and the error taxonomy of the catalog. */
module Tipos {

  /** A value that may be missing; `None` stands for a Java `null` reference. */
  datatype Option<+T> = None | Some(value: T)

  /** A calendar date without time of day or time zone (java.time.LocalDate).
      Dates are ordered lexicographically by year, month and day. */
  datatype Data = Data(ano: int, mes: int, dia: int)

  /** `a.isAfter(b)`: `a` is strictly later than `b`. */
  predicate EhDepois(a: Data, b: Data)
  {
    a.ano > b.ano
    || (a.ano == b.ano && (a.mes > b.mes || (a.mes == b.mes && a.dia > b.dia)))
  }

  /** `a.isBefore(b)`: `a` is strictly earlier than `b`. */
  predicate EhAntes(a: Data, b: Data)
  {
    EhDepois(b, a)
  }

  /** The date order is a strict total order: exactly one of "after",
      "before" and "equal" holds for any two dates. */
  lemma DataTricotomia(a: Data, b: Data)
    ensures EhDepois(a, b) || EhAntes(a, b) || a == b
    ensures !(EhDepois(a, b) && EhAntes(a, b))
    ensures EhDepois(a, b) ==> a != b
  {
  }

  /** A game record. Every field may be null: the record itself enforces
      nothing, admission into a catalog does. */
  datatype Jogo = Jogo(
    codigo: Option<string>,
    nome: Option<string>,
    genero: Option<string>,
    preco: Option<real>,
    avaliacao: Option<real>,
    dataLancamento: Option<Data>)

  /** Which admission check rejected a game, in the order the checks run;
      each corresponds to one distinct message of JogoInvalidoException. */
  datatype Motivo =
    | JogoNulo
    | CodigoInvalido
    | NomeInvalido
    | GeneroInvalido
    | PrecoInvalido
    | AvaliacaoInvalida
    | DataNula
    | DataFutura

  /** The three exception kinds a caller can tell apart. */
  datatype Falha =
    | JogoInvalido(motivo: Motivo)
    | ArgumentoInvalido
    | JogoNaoEncontrado

  /** The outcome of a catalog operation: a value, or the exception it raises. */
  datatype Resultado<+T> = Ok(valor: T) | Erro(falha: Falha)
}
