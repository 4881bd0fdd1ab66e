/** The rules of the game catalog, stated as functions on values: the blank
    test, the admission checks in the order they run, lookup by code,
    removal of a found element, the "best rated" choice and the period
    filter. The class in module Empresas is proved against these. */
module Catalogo {
  import opened Tipos
  import opened Texto

  // ---------------------------------------------------------------------
  // Blank strings

  /** `isNuloOuBranco`: null, or nothing left after `trim()` — that is,
      made only of characters at most U+0020. */
  function IsNuloOuBranco(s: Option<string>): (b: bool)
    ensures b <==> s.None? || SoEspacos(s.value)
  {
    if s.None? then true
    else
      TrimVazioSeSoEspacos(s.value);
      |Trim(s.value)| == 0
  }

  // ---------------------------------------------------------------------
  // Admission

  /** The field constraints every stored game satisfies: code, name and
      genre not blank, a positive price, a rating in [0, 5] and a date. */
  predicate CamposValidos(j: Jogo)
  {
    && !IsNuloOuBranco(j.codigo)
    && !IsNuloOuBranco(j.nome)
    && !IsNuloOuBranco(j.genero)
    && j.preco.Some? && j.preco.value > 0.0
    && j.avaliacao.Some? && 0.0 <= j.avaliacao.value <= 5.0
    && j.dataLancamento.Some?
  }

  /** A game may be admitted on day `hoje`: valid fields and a release date
      that is not in the future. */
  predicate Admissivel(j: Jogo, hoje: Data)
  {
    CamposValidos(j) && !EhDepois(j.dataLancamento.value, hoje)
  }

  /** The single admission check named by `m` rejects `jogo`, when looked
      at on its own. */
  predicate Reprova(m: Motivo, jogo: Option<Jogo>, hoje: Data)
  {
    match m
    case JogoNulo => jogo.None?
    case CodigoInvalido => jogo.Some? && IsNuloOuBranco(jogo.value.codigo)
    case NomeInvalido => jogo.Some? && IsNuloOuBranco(jogo.value.nome)
    case GeneroInvalido => jogo.Some? && IsNuloOuBranco(jogo.value.genero)
    case PrecoInvalido =>
      jogo.Some? && (jogo.value.preco.None? || jogo.value.preco.value <= 0.0)
    case AvaliacaoInvalida =>
      jogo.Some? && (jogo.value.avaliacao.None? ||
                     jogo.value.avaliacao.value < 0.0 || jogo.value.avaliacao.value > 5.0)
    case DataNula => jogo.Some? && jogo.value.dataLancamento.None?
    case DataFutura =>
      jogo.Some? && jogo.value.dataLancamento.Some? &&
      EhDepois(jogo.value.dataLancamento.value, hoje)
  }

  /** The position of each check in the admission chain. */
  function Ordem(m: Motivo): nat
  {
    match m
    case JogoNulo => 0
    case CodigoInvalido => 1
    case NomeInvalido => 2
    case GeneroInvalido => 3
    case PrecoInvalido => 4
    case AvaliacaoInvalida => 5
    case DataNula => 6
    case DataFutura => 7
  }

  /** The outcome of the admission chain: `None` when the game passes,
      otherwise the first check that rejects it. */
  function Validar(jogo: Option<Jogo>, hoje: Data): (r: Option<Motivo>)
    ensures r.None? <==> jogo.Some? && Admissivel(jogo.value, hoje)
    ensures r.Some? ==> Reprova(r.value, jogo, hoje)
    ensures r.Some? ==> forall m :: Ordem(m) < Ordem(r.value) ==> !Reprova(m, jogo, hoje)
  {
    if jogo.None? then Some(JogoNulo)
    else
      var j := jogo.value;
      if IsNuloOuBranco(j.codigo) then Some(CodigoInvalido)
      else if IsNuloOuBranco(j.nome) then Some(NomeInvalido)
      else if IsNuloOuBranco(j.genero) then Some(GeneroInvalido)
      else if j.preco.None? || j.preco.value <= 0.0 then Some(PrecoInvalido)
      else if j.avaliacao.None? || j.avaliacao.value < 0.0 || j.avaliacao.value > 5.0 then
        Some(AvaliacaoInvalida)
      else if j.dataLancamento.None? then Some(DataNula)
      else if EhDepois(j.dataLancamento.value, hoje) then Some(DataFutura)
      else None
  }

  /** A game is admitted exactly when no single check rejects it, so the
      order of the checks only decides which error is reported. */
  lemma AdmissivelSeNenhumaReprova(jogo: Option<Jogo>, hoje: Data)
    ensures (jogo.Some? && Admissivel(jogo.value, hoje)) <==> forall m :: !Reprova(m, jogo, hoje)
  {
    if forall m :: !Reprova(m, jogo, hoje) {
      // the chain reports a failing check whenever it rejects
      var r := Validar(jogo, hoje);
    } else {
      var m :| Reprova(m, jogo, hoje);
      assert !(jogo.Some? && Admissivel(jogo.value, hoje)) by {
        match m
        case DataFutura =>
        case _ =>
      }
    }
  }

  // ---------------------------------------------------------------------
  // Lookup and removal by code

  /** `j.getCodigo() != null && j.getCodigo().equals(codigo)`. */
  predicate TemCodigo(j: Jogo, codigo: string)
  {
    j.codigo == Some(codigo)
  }

  /** The index of the first game carrying `codigo`, scanning from the
      front, or `None` when no game carries it. */
  function IndicePorCodigo(s: seq<Jogo>, codigo: string): (r: Option<nat>)
    ensures r.Some? ==> r.value < |s| && TemCodigo(s[r.value], codigo)
    ensures r.Some? ==> forall p :: 0 <= p < r.value ==> !TemCodigo(s[p], codigo)
    ensures r.None? ==> forall p :: 0 <= p < |s| ==> !TemCodigo(s[p], codigo)
  {
    if |s| == 0 then None
    else if TemCodigo(s[0], codigo) then Some(0)
    else
      match IndicePorCodigo(s[1..], codigo)
      case None => None
      case Some(i) => Some(i + 1)
  }

  /** Appending a game never hides an earlier one with the same code: the
      lookup still finds the earlier-admitted game, and finds the new one
      only when it is the first with that code. */
  lemma IndiceAposInsercao(s: seq<Jogo>, x: Jogo, codigo: string)
    ensures IndicePorCodigo(s + [x], codigo) ==
      if IndicePorCodigo(s, codigo).Some? then IndicePorCodigo(s, codigo)
      else if TemCodigo(x, codigo) then Some(|s|)
      else None
  {
    var t := s + [x];
    assert forall q :: 0 <= q < |s| ==> t[q] == s[q];
    assert t[|s|] == x;
    var a := IndicePorCodigo(s, codigo);
    var b := IndicePorCodigo(t, codigo);
  }

  /** `List.remove(Object)`: drops the first element equal to `x`, if any. */
  function RemoverPrimeiro<T(==)>(s: seq<T>, x: T): (r: seq<T>)
    ensures x !in s ==> r == s
    ensures x in s ==> |r| == |s| - 1
  {
    if |s| == 0 then []
    else if s[0] == x then s[1..]
    else [s[0]] + RemoverPrimeiro(s[1..], x)
  }

  /** Removing the first element equal to `x` is removal at the index of its
      first occurrence; the other elements keep their relative order. */
  lemma {:induction false} RemoverPrimeiroNoIndice<T>(s: seq<T>, x: T, i: nat)
    requires i < |s| && s[i] == x
    requires forall p :: 0 <= p < i ==> s[p] != x
    ensures RemoverPrimeiro(s, x) == s[..i] + s[i + 1..]
  {
    if i > 0 {
      assert s[1..][i - 1] == x;
      forall p | 0 <= p < i - 1 ensures s[1..][p] != x {
        assert s[1..][p] == s[p + 1];
      }
      RemoverPrimeiroNoIndice(s[1..], x, i - 1);
      assert s[..i] == [s[0]] + s[1..][..i - 1];
      assert s[i + 1..] == s[1..][i..];
    }
  }

  /** Removing the game that the lookup by code found removes it at the
      index the lookup reported: no earlier game is equal to it, because an
      equal game would carry the same code. */
  lemma RemoverEncontrado(s: seq<Jogo>, codigo: string, i: nat)
    requires IndicePorCodigo(s, codigo) == Some(i)
    ensures RemoverPrimeiro(s, s[i]) == s[..i] + s[i + 1..]
  {
    forall p | 0 <= p < i ensures s[p] != s[i] {
      assert !TemCodigo(s[p], codigo);
    }
    RemoverPrimeiroNoIndice(s, s[i], i);
  }

  // ---------------------------------------------------------------------
  // Best rated game

  /** The rating the search compares: a null rating counts as -1. */
  function AvaliacaoOuPadrao(j: Jogo): real
  {
    if j.avaliacao.Some? then j.avaliacao.value else -1.0
  }

  /** The search's date comparison: a present date beats a missing one, and
      a later date beats an earlier one. */
  predicate DataPosterior(a: Option<Data>, b: Option<Data>)
  {
    (b.None? && a.Some?) || (a.Some? && b.Some? && EhDepois(a.value, b.value))
  }

  /** `atual` replaces `melhor` during the search: a strictly greater rating,
      or an equal rating and a strictly later date. */
  predicate Supera(atual: Jogo, melhor: Jogo)
  {
    AvaliacaoOuPadrao(atual) > AvaliacaoOuPadrao(melhor)
    || (AvaliacaoOuPadrao(atual) == AvaliacaoOuPadrao(melhor) &&
        DataPosterior(atual.dataLancamento, melhor.dataLancamento))
  }

  /** Neither game beats the other: same compared rating and same date. */
  predicate Empatam(a: Jogo, b: Jogo)
  {
    AvaliacaoOuPadrao(a) == AvaliacaoOuPadrao(b) && a.dataLancamento == b.dataLancamento
  }

  /** `Supera` is a strict order whose incomparable pairs are the ties. */
  lemma SuperaOrdemEstrita(a: Jogo, b: Jogo, c: Jogo)
    ensures !Supera(a, a)
    ensures Supera(a, b) ==> !Supera(b, a)
    ensures Supera(a, b) && Supera(b, c) ==> Supera(a, c)
    ensures Supera(a, b) || Supera(b, a) || Empatam(a, b)
    ensures Empatam(a, b) ==> !Supera(a, b) && !Supera(b, a)
  {
  }

  /** `k` is the index the search reports: no game beats `s[k]`, and `s[k]`
      beats every game before it, so it is the first of the games tied with
      it. */
  predicate EhMelhor(s: seq<Jogo>, k: int)
  {
    && 0 <= k < |s|
    && (forall p :: 0 <= p < |s| ==> !Supera(s[p], s[k]))
    && (forall p :: 0 <= p < k ==> Supera(s[k], s[p]))
  }

  /** The index the single pass ends at: the best of all but the last game,
      replaced by the last one when it beats it. */
  function IndiceMelhor(s: seq<Jogo>): (k: nat)
    requires |s| > 0
    ensures EhMelhor(s, k)
  {
    if |s| == 1 then 0
    else
      var p := s[..|s| - 1];
      var k := IndiceMelhor(p);
      assert forall q :: 0 <= q < |p| ==> p[q] == s[q];
      var u := |s| - 1;
      if Supera(s[u], s[k]) then
        assert forall q :: 0 <= q < u ==> Supera(s[u], s[q]) by {
          forall q | 0 <= q < u ensures Supera(s[u], s[q]) {
            assert !Supera(s[q], s[k]);
            SuperaOrdemEstrita(s[u], s[k], s[q]);
            SuperaOrdemEstrita(s[q], s[k], s[u]);
          }
        }
        assert forall q :: 0 <= q < |s| ==> !Supera(s[q], s[u]) by {
          forall q | 0 <= q < |s| ensures !Supera(s[q], s[u]) {
            if q < u {
              SuperaOrdemEstrita(s[q], s[u], s[k]);
            }
          }
        }
        u
      else
        k
  }

  /** Only one index satisfies the description of the search's answer. */
  lemma MelhorUnico(s: seq<Jogo>, k1: int, k2: int)
    requires EhMelhor(s, k1) && EhMelhor(s, k2)
    ensures k1 == k2
  {
    // name both games, so that each description can be applied to the other
    var a, b := s[k1], s[k2];
  }

  /** Over games that have a rating and a date (all stored games do), the answer has the highest rating;
      among games with that rating, the latest date; and no earlier game
      ties with it on both. */
  lemma MelhorEmCatalogoValido(s: seq<Jogo>, k: int)
    requires forall p :: 0 <= p < |s| ==> s[p].avaliacao.Some? && s[p].dataLancamento.Some?
    requires EhMelhor(s, k)
    ensures forall p :: 0 <= p < |s| ==> s[p].avaliacao.value <= s[k].avaliacao.value
    ensures forall p :: 0 <= p < |s| && s[p].avaliacao == s[k].avaliacao ==>
      !EhDepois(s[p].dataLancamento.value, s[k].dataLancamento.value)
    ensures forall p :: 0 <= p < k ==>
      s[p].avaliacao != s[k].avaliacao || s[p].dataLancamento != s[k].dataLancamento
  {
    forall p | 0 <= p < |s|
      ensures s[p].avaliacao.value <= s[k].avaliacao.value
      ensures s[p].avaliacao == s[k].avaliacao ==>
        !EhDepois(s[p].dataLancamento.value, s[k].dataLancamento.value)
    {
      NaoSuperaComCampos(s[p], s[k]);
    }
    forall p | 0 <= p < k
      ensures s[p].avaliacao != s[k].avaliacao || s[p].dataLancamento != s[k].dataLancamento
    {
      assert Supera(s[k], s[p]);
    }
  }

  /** For games with a rating and a date, not beating `b` means a rating at
      most `b`'s and, on an equal rating, a date not after `b`'s. */
  lemma NaoSuperaComCampos(a: Jogo, b: Jogo)
    requires a.avaliacao.Some? && b.avaliacao.Some?
    requires a.dataLancamento.Some? && b.dataLancamento.Some?
    requires !Supera(a, b)
    ensures a.avaliacao.value <= b.avaliacao.value
    ensures a.avaliacao == b.avaliacao ==>
      !EhDepois(a.dataLancamento.value, b.dataLancamento.value)
  {
  }

  // ---------------------------------------------------------------------
  // Games released in a period

  /** The game has a release date inside the closed interval [ini, fim]. */
  predicate NoPeriodo(j: Jogo, ini: Data, fim: Data)
  {
    j.dataLancamento.Some?
    && !EhAntes(j.dataLancamento.value, ini)
    && !EhDepois(j.dataLancamento.value, fim)
  }

  /** The games of `s` released in [ini, fim], in the order of `s`. */
  function FiltrarPeriodo(s: seq<Jogo>, ini: Data, fim: Data): (r: seq<Jogo>)
    ensures |r| <= |s|
    ensures forall x :: x in r <==> x in s && NoPeriodo(x, ini, fim)
  {
    if |s| == 0 then []
    else
      var p := s[..|s| - 1];
      var u := s[|s| - 1];
      assert s == p + [u];
      FiltrarPeriodo(p, ini, fim) + (if NoPeriodo(u, ini, fim) then [u] else [])
  }

  /** Filtering distributes over concatenation, so together with its value
      on one game it pins the result down: the qualifying games, each once
      per occurrence, in their original order. */
  lemma {:induction false} FiltrarConcat(a: seq<Jogo>, b: seq<Jogo>, ini: Data, fim: Data)
    ensures FiltrarPeriodo(a + b, ini, fim) == FiltrarPeriodo(a, ini, fim) + FiltrarPeriodo(b, ini, fim)
  {
    if |b| == 0 {
      assert a + b == a;
    } else {
      var p := b[..|b| - 1];
      var u := b[|b| - 1];
      assert (a + b)[..|a + b| - 1] == a + p;
      assert (a + b)[|a + b| - 1] == u;
      FiltrarConcat(a, p, ini, fim);
    }
  }

  /** On one game the filter keeps it exactly when it is in the period;
      both ends of the interval are included. */
  lemma FiltrarUnitario(x: Jogo, ini: Data, fim: Data)
    ensures FiltrarPeriodo([x], ini, fim) == if NoPeriodo(x, ini, fim) then [x] else []
    ensures x.dataLancamento == Some(ini) && !EhDepois(ini, fim) ==> FiltrarPeriodo([x], ini, fim) == [x]
    ensures x.dataLancamento == Some(fim) && !EhDepois(ini, fim) ==> FiltrarPeriodo([x], ini, fim) == [x]
  {
    assert [x][..0] == [];
  }

  /** The filter keeps every occurrence of a qualifying game and none of
      the others. */
  lemma {:induction false} FiltrarMultiset(s: seq<Jogo>, ini: Data, fim: Data, x: Jogo)
    ensures multiset(FiltrarPeriodo(s, ini, fim))[x] ==
      if NoPeriodo(x, ini, fim) then multiset(s)[x] else 0
  {
    if |s| > 0 {
      var p := s[..|s| - 1];
      var u := s[|s| - 1];
      assert s == p + [u];
      FiltrarMultiset(p, ini, fim, x);
    }
  }
}
