/** The company: an insertion-ordered catalog of games, updated in place.
    Each method is proved against the functions of module Catalogo. */
module Empresas {
  import opened Tipos
  import opened Catalogo

  class Empresa {
    /** The stored games, in the order they were admitted. */
    var jogos: seq<Jogo>

    /** Every stored game passed the field checks of admission. */
    ghost predicate Valid()
      reads this
    {
      forall p :: 0 <= p < |jogos| ==> CamposValidos(jogos[p])
    }

    /** A company starts with no games. */
    constructor ()
      ensures Valid() && jogos == []
    {
      jogos := [];
    }

    /** `adicionarJogo`, with `hoje` standing for `LocalDate.now()`. The checks
        run in order and the first one that fails decides the error; on
        success the game is appended, on failure nothing changes. */
    method AdicionarJogo(jogo: Option<Jogo>, hoje: Data) returns (r: Resultado<()>)
      modifies this
      ensures Validar(jogo, hoje).Some? ==>
        r == Erro(JogoInvalido(Validar(jogo, hoje).value)) && jogos == old(jogos)
      ensures Validar(jogo, hoje).None? ==>
        r == Ok(()) && jogos == old(jogos) + [jogo.value]
      ensures r.Ok? <==> jogo.Some? && Admissivel(jogo.value, hoje)
      ensures old(Valid()) ==> Valid()
    {
      if jogo.None? {
        return Erro(JogoInvalido(JogoNulo));
      }
      var j := jogo.value;
      if IsNuloOuBranco(j.codigo) {
        return Erro(JogoInvalido(CodigoInvalido));
      }
      if IsNuloOuBranco(j.nome) {
        return Erro(JogoInvalido(NomeInvalido));
      }
      if IsNuloOuBranco(j.genero) {
        return Erro(JogoInvalido(GeneroInvalido));
      }
      if j.preco.None? || j.preco.value <= 0.0 {
        return Erro(JogoInvalido(PrecoInvalido));
      }
      if j.avaliacao.None? || j.avaliacao.value < 0.0 || j.avaliacao.value > 5.0 {
        return Erro(JogoInvalido(AvaliacaoInvalida));
      }
      if j.dataLancamento.None? {
        return Erro(JogoInvalido(DataNula));
      }
      if EhDepois(j.dataLancamento.value, hoje) {
        return Erro(JogoInvalido(DataFutura));
      }
      jogos := jogos + [j];
      return Ok(());
    }

    /** `buscarJogoPorCodigo`: a blank code is an invalid argument; otherwise
        the first game carrying the code, or "not found". */
    method BuscarJogoPorCodigo(codigo: Option<string>) returns (r: Resultado<Jogo>)
      ensures IsNuloOuBranco(codigo) ==> r == Erro(ArgumentoInvalido)
      ensures !IsNuloOuBranco(codigo) ==>
        match IndicePorCodigo(jogos, codigo.value)
        case Some(i) => r == Ok(jogos[i])
        case None => r == Erro(JogoNaoEncontrado)
    {
      if IsNuloOuBranco(codigo) {
        return Erro(ArgumentoInvalido);
      }
      var c := codigo.value;
      for i := 0 to |jogos|
        invariant forall p :: 0 <= p < i ==> !TemCodigo(jogos[p], c)
      {
        var j := jogos[i];
        if j.codigo.Some? && j.codigo.value == c {
          return Ok(j);
        }
      }
      return Erro(JogoNaoEncontrado);
    }

    /** `removerJogoPorCodigo`: looks the game up as `BuscarJogoPorCodigo`
        does and removes the element found; the survivors keep their order.
        When the lookup fails, the catalog is unchanged. */
    method RemoverJogoPorCodigo(codigo: Option<string>) returns (r: Resultado<()>)
      modifies this
      ensures IsNuloOuBranco(codigo) ==> r == Erro(ArgumentoInvalido) && jogos == old(jogos)
      ensures !IsNuloOuBranco(codigo) ==>
        match IndicePorCodigo(old(jogos), codigo.value)
        case Some(i) => r == Ok(()) && jogos == old(jogos)[..i] + old(jogos)[i + 1..]
        case None => r == Erro(JogoNaoEncontrado) && jogos == old(jogos)
      ensures old(Valid()) ==> Valid()
    {
      if IsNuloOuBranco(codigo) {
        return Erro(ArgumentoInvalido);
      }
      var encontrado := BuscarJogoPorCodigo(codigo);
      if encontrado.Erro? {
        return Erro(encontrado.falha);
      }
      var i := IndicePorCodigo(jogos, codigo.value).value;
      RemoverEncontrado(jogos, codigo.value, i);
      ghost var antes := jogos;
      jogos := RemoverPrimeiro(jogos, encontrado.valor);
      assert forall p :: 0 <= p < |jogos| ==> jogos[p] == antes[if p < i then p else p + 1];
      return Ok(());
    }

    /** `buscarJogoComMelhorAvaliacao`: "not found" on an empty catalog;
        otherwise the game a single pass keeps, replacing the current best
        only by a game that beats it. */
    method BuscarJogoComMelhorAvaliacao() returns (r: Resultado<Jogo>)
      ensures jogos == [] ==> r == Erro(JogoNaoEncontrado)
      ensures jogos != [] ==> r == Ok(jogos[IndiceMelhor(jogos)])
      // over a catalog of admitted games: the highest rating, the latest date
      // among that rating, and the first of the games tied on both
      ensures Valid() && r.Ok? ==> forall p :: 0 <= p < |jogos| ==>
        jogos[p].avaliacao.value <= r.valor.avaliacao.value
      ensures Valid() && r.Ok? ==> forall p :: 0 <= p < |jogos| ==>
        jogos[p].avaliacao == r.valor.avaliacao ==>
        !EhDepois(jogos[p].dataLancamento.value, r.valor.dataLancamento.value)
      ensures Valid() && r.Ok? ==>
        exists k :: 0 <= k < |jogos| && r.valor == jogos[k] &&
          (forall p :: 0 <= p < k ==>
             jogos[p].avaliacao != r.valor.avaliacao ||
             jogos[p].dataLancamento != r.valor.dataLancamento)
    {
      if |jogos| == 0 {
        return Erro(JogoNaoEncontrado);
      }
      var melhor: Option<Jogo> := None;
      for i := 0 to |jogos|
        invariant i == 0 <==> melhor.None?
        invariant i > 0 ==> melhor == Some(jogos[IndiceMelhor(jogos[..i])])
      {
        var atual := jogos[i];
        assert jogos[..i + 1][..i] == jogos[..i];
        if melhor.None? {
          melhor := Some(atual);
        } else {
          var avMelhor := if melhor.value.avaliacao.Some? then melhor.value.avaliacao.value else -1.0;
          var avAtual := if atual.avaliacao.Some? then atual.avaliacao.value else -1.0;
          if avAtual > avMelhor {
            melhor := Some(atual);
          } else if avAtual == avMelhor {
            var dMelhor := melhor.value.dataLancamento;
            var dAtual := atual.dataLancamento;
            if dMelhor.None? && dAtual.Some? {
              melhor := Some(atual);
            } else if dMelhor.Some? && dAtual.Some? && EhDepois(dAtual.value, dMelhor.value) {
              melhor := Some(atual);
            }
          }
        }
      }
      assert jogos[..|jogos|] == jogos;
      if Valid() {
        MelhorEmCatalogoValido(jogos, IndiceMelhor(jogos));
      }
      return Ok(melhor.value);
    }

    /** `buscarJogoPorPeriodo`: a missing bound or a start after the end is an
        invalid argument; otherwise the games released in [inicio, fim],
        in catalog order. */
    method BuscarJogoPorPeriodo(dataInicio: Option<Data>, dataFim: Option<Data>)
      returns (r: Resultado<seq<Jogo>>)
      ensures dataInicio.None? || dataFim.None? ==> r == Erro(ArgumentoInvalido)
      ensures dataInicio.Some? && dataFim.Some? ==>
        r == if EhDepois(dataInicio.value, dataFim.value) then Erro(ArgumentoInvalido)
             else Ok(FiltrarPeriodo(jogos, dataInicio.value, dataFim.value))
    {
      if dataInicio.None? || dataFim.None? {
        return Erro(ArgumentoInvalido);
      }
      var ini, fim := dataInicio.value, dataFim.value;
      if EhDepois(ini, fim) {
        return Erro(ArgumentoInvalido);
      }
      var resultado: seq<Jogo> := [];
      for i := 0 to |jogos|
        invariant resultado == FiltrarPeriodo(jogos[..i], ini, fim)
      {
        var j := jogos[i];
        assert jogos[..i + 1][..i] == jogos[..i];
        var data := j.dataLancamento;
        if data.Some? && (!EhAntes(data.value, ini) && !EhDepois(data.value, fim)) {
          resultado := resultado + [j];
        }
      }
      assert jogos[..|jogos|] == jogos;
      return Ok(resultado);
    }
  }
}
