# Empresa: a verified model of an in-memory game catalog

The repository is one class, `Empresa` (a company), that owns an
insertion-ordered list of `Jogo` (game) records and offers five operations:

- validated admission of a game (`adicionarJogo`);
- first-match lookup by code (`buscarJogoPorCodigo`);
- removal of the game that lookup finds (`removerJogoPorCodigo`);
- the best-rated game, with ties broken by the later release date and then
  by admission order (`buscarJogoComMelhorAvaliacao`);
- the games released in a closed date interval (`buscarJogoPorPeriodo`).

It also has the private blank-string test `isNuloOuBranco`.

The Dafny project has five modules:

- `Tipos` (tipos.dfy): the value types. A Java `null` is `Option.None`.
  `LocalDate` is `Data(ano, mes, dia)`, compared lexicographically as
  `LocalDate.isAfter`/`isBefore` do. `Jogo` is a record whose six fields
  are all optional. The three exception classes become the `Falha` variants
  `JogoInvalido`, `ArgumentoInvalido` and `JogoNaoEncontrado`. A
  `JogoInvalido` carries a `Motivo` naming the check that failed, which
  stands for the distinct message each check throws.
- `Texto` (texto.dfy): `String.trim()`, which drops leading and trailing
  characters at most U+0020.
- `Catalogo` (catalogo.dfy): the rules as functions on values, with the
  lemmas about them:
  - the admission chain (`Validar`) against the plain conjunction of field
    constraints (`Admissivel`);
  - first index by code;
  - `List.remove(Object)`;
  - the replacement relation of the best-rated search (`Supera`), and the
    index that search ends at;
  - the period filter.
- `Empresas` (empresa.dfy): the class `Empresa`. Its `jogos` field is a
  `seq<Jogo>` that `AdicionarJogo` and `RemoverJogoPorCodigo` reassign. The
  three queries are loops, as in the source, and each is proved against
  the corresponding function of `Catalogo`. `Valid()` is the catalog
  invariant "every stored game passed the field checks". Both mutating
  methods preserve it.
- `Cenarios` (cenarios.dfy): client code and concrete lemmas that use only
  the contracts. It covers: admit, find, remove, then "not found"; a future
  date rejected; the error cases of the queries; the date tie-break; the
  first-admitted tie-break; an inclusive period.

`LocalDate.now()` becomes the parameter `hoje` of `AdicionarJogo`. Prices
and ratings are `real`.

Two defensive details of the code are kept as written:

- `buscarJogoComMelhorAvaliacao` compares a null rating as -1.0.
- That search lets a game with a date replace a best game without one.
  Both branches are modelled, although admission makes them unreachable.

## Model

| member | source | states |
|---|---|---|
| Texto.TiraInicio | src/main/java/school/sptech/Empresa.java:147 | the leading pass of `trim()` keeps a suffix of its input, everything it dropped is trimmable, and what it keeps starts with a non-trimmable character |
| Texto.TiraFim | src/main/java/school/sptech/Empresa.java:147 | the trailing pass keeps a prefix, everything it dropped is trimmable, and what it keeps ends with a non-trimmable character |
| Texto.TrimVazioSeSoEspacos | src/main/java/school/sptech/Empresa.java:147 | `s.trim().isEmpty()` holds exactly when every character of `s` is at most U+0020 |
| Texto.TrimFatia | src/main/java/school/sptech/Empresa.java:147 | `trim()` returns a contiguous slice of its input, neither end of a non-empty result is trimmable, and trimming twice equals trimming once |
| Catalogo.IsNuloOuBranco | src/main/java/school/sptech/Empresa.java:146-148 | true exactly when the string is null or made only of trimmable characters |
| Catalogo.Validar | src/main/java/school/sptech/Empresa.java:32-65 | the chain accepts exactly the admissible games (non-null; code, name and genre not blank; price > 0; rating in [0, 5]; a date not after today); when it rejects, the reported check does fail and every earlier check passes |
| Catalogo.AdmissivelSeNenhumaReprova | src/main/java/school/sptech/Empresa.java:33-65 | a game is admissible exactly when none of the eight checks rejects it, so check order affects only which error is reported |
| Catalogo.IndicePorCodigo | src/main/java/school/sptech/Empresa.java:74-80 | the result is the smallest index whose code equals the argument (a null code never matches), or none when no index matches |
| Catalogo.IndiceAposInsercao | src/main/java/school/sptech/Empresa.java:67-78 | after an append, lookup still returns the earlier-admitted game with that code; the new game is found only when it is the first with its code |
| Catalogo.RemoverPrimeiro | src/main/java/school/sptech/Empresa.java:91 | `List.remove(Object)` leaves the list unchanged when the element is absent, and shortens it by exactly one otherwise |
| Catalogo.RemoverPrimeiroNoIndice | src/main/java/school/sptech/Empresa.java:91 | removing the first element equal to `x` gives `s[..i] + s[i+1..]`, where `i` is its first occurrence |
| Catalogo.RemoverEncontrado | src/main/java/school/sptech/Empresa.java:89-91 | removing the game that lookup found removes it exactly at the lookup's index |
| Catalogo.SuperaOrdemEstrita | src/main/java/school/sptech/Empresa.java:105-118 | the replacement test is irreflexive, asymmetric and transitive; two games it cannot order tie on both rating and date |
| Catalogo.IndiceMelhor | src/main/java/school/sptech/Empresa.java:99-123 | the index the single pass ends at is beaten by no game, and it beats every game before it, so it is the first among the games tied with it |
| Catalogo.MelhorUnico | src/main/java/school/sptech/Empresa.java:101-121 | at most one index satisfies that description, so the answer is determined |
| Catalogo.MelhorEmCatalogoValido | src/main/java/school/sptech/Empresa.java:105-118 | when every game has a rating and a date: the answer's rating is at least every rating; among equal ratings, no date is later than the answer's; no earlier game ties with it on both |
| Catalogo.NaoSuperaComCampos | src/main/java/school/sptech/Empresa.java:108-117 | for two rated, dated games, failing to replace means rating at most, and on equal rating a date not after |
| Catalogo.FiltrarPeriodo | src/main/java/school/sptech/Empresa.java:134-143 | a game is in the result exactly when it is stored and has a date in [inicio, fim]; the result is no longer than the catalog |
| Catalogo.FiltrarConcat | src/main/java/school/sptech/Empresa.java:136-141 | the filter of a concatenation is the concatenation of the filters, so the catalog's order is kept |
| Catalogo.FiltrarUnitario | src/main/java/school/sptech/Empresa.java:137-140 | one game is kept exactly when its date is in the period, including a date equal to either end |
| Catalogo.FiltrarMultiset | src/main/java/school/sptech/Empresa.java:136-141 | each qualifying game is kept as many times as it is stored, and no other game is kept |
| Empresas.Empresa.constructor | src/main/java/school/sptech/Empresa.java:16-18 | a new company has an empty catalog |
| Empresas.Empresa.AdicionarJogo | src/main/java/school/sptech/Empresa.java:32-67 | the call succeeds exactly when the game is admissible on `hoje`. A game the chain accepts is appended (`jogos == old(jogos) + [jogo]`); otherwise the result is `JogoInvalido` with the first failing check and `jogos` is unchanged; the catalog invariant is kept |
| Empresas.Empresa.BuscarJogoPorCodigo | src/main/java/school/sptech/Empresa.java:69-81 | a blank or null code gives `ArgumentoInvalido`; otherwise the result is the game at the first matching index, or `JogoNaoEncontrado`; the catalog is not modified |
| Empresas.Empresa.RemoverJogoPorCodigo | src/main/java/school/sptech/Empresa.java:84-92 | on success `jogos == old[..i] + old[i+1..]` for the first matching index `i`; a blank code (`ArgumentoInvalido`) or no match (`JogoNaoEncontrado`) leaves `jogos` unchanged; the catalog invariant is kept |
| Empresas.Empresa.BuscarJogoComMelhorAvaliacao | src/main/java/school/sptech/Empresa.java:94-124 | an empty catalog gives `JogoNaoEncontrado`; otherwise the game at the index characterised by `IndiceMelhor`. Over a catalog of admitted games, that game has the highest rating, the latest date among games with that rating, and no earlier game ties with it on both. The catalog is not modified |
| Empresas.Empresa.BuscarJogoPorPeriodo | src/main/java/school/sptech/Empresa.java:126-144 | a null bound, or a start after the end, gives `ArgumentoInvalido`; otherwise the in-order filter of the catalog over the closed interval; the catalog is not modified |
| Cenarios.DesempatePorData | src/main/java/school/sptech/Empresa.java:110-118 | among three games rated 5, the one with the latest date is chosen |
| Cenarios.DesempatePrimeiroAdmitido | src/main/java/school/sptech/Empresa.java:110-118 | of two games equal on rating and date, the first admitted is chosen |
| Cenarios.PeriodoInclusivo | src/main/java/school/sptech/Empresa.java:136-141 | games dated on the first and on the last day of the period are returned, in order; a game dated the day after is not |

## Left out

- `nome`, `getNome` and `setNome`: an unvalidated label that no operation reads.
- `getJogos`: it hands out the live list, which a caller could then mutate
  behind the catalog's back. The model keeps no such alias. So it also
  assumes that the stored list never holds a null game.
- `LocalDate.now()`: the host clock becomes the parameter `hoje`.
- `Double` arithmetic for price and rating: modelled as `real`. NaN,
  rounding and signed zero are not modelled. In Java a NaN passes the
  price and rating checks.
- `Data` is any triple of integers. Calendar validity of a `LocalDate` is
  not modelled; the order does not depend on it.
- `Jogo` is not part of this model, and neither is its `equals`.
  `jogos.remove(encontrado)` is modelled as removing the first element equal
  to the found game under value equality. `Catalogo.RemoverEncontrado`
  shows this removes exactly at the lookup's index.
- The exception messages: only the error kind is kept, plus the `Motivo`
  naming which admission check failed.
- Exceptions are modelled as a returned `Resultado`. There is no unwinding.
- `String.trim()` is modelled from its documented behaviour, because the JDK
  is not part of this model.
