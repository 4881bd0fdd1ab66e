/** Clients of the catalog: what a caller can conclude from the contracts of
    Empresas.Empresa alone. */
module Cenarios {
  import opened Tipos
  import opened Texto
  import opened Catalogo
  import opened Empresas

  function JogoDe(codigo: string, avaliacao: real, data: Data): Jogo
  {
    Jogo(Some(codigo), Some("Alpha"), Some("RPG"), Some(10.0), Some(avaliacao), Some(data))
  }

  /** Admit a game, find it, remove it: the next lookup reports "not found". */
  method CaminhoFeliz()
  {
    var e := new Empresa();
    var a1 := JogoDe("A1", 4.0, Data(2020, 1, 1));
    assert !EhEspaco("A1"[0]);
    assert !EhEspaco("Alpha"[0]) && !EhEspaco("RPG"[0]);
    var ok := e.AdicionarJogo(Some(a1), Data(2024, 6, 1));
    assert ok == Ok(());
    assert e.jogos == [a1];
    var achado := e.BuscarJogoPorCodigo(Some("A1"));
    assert achado == Ok(a1);
    var removido := e.RemoverJogoPorCodigo(Some("A1"));
    assert removido == Ok(()) && e.jogos == [];
    achado := e.BuscarJogoPorCodigo(Some("A1"));
    assert achado == Erro(JogoNaoEncontrado);
  }

  /** A release date one day after `hoje` is rejected and nothing is stored. */
  method DataFuturaRejeitada()
  {
    var e := new Empresa();
    var g := JogoDe("B2", 3.0, Data(2024, 6, 2));
    assert !EhEspaco("B2"[0]);
    assert !EhEspaco("Alpha"[0]) && !EhEspaco("RPG"[0]);
    var r := e.AdicionarJogo(Some(g), Data(2024, 6, 1));
    assert r == Erro(JogoInvalido(DataFutura));
    assert e.jogos == [];
  }

  /** An empty catalog has no best game, and a reversed period is refused. */
  method ErrosDeConsulta()
  {
    var e := new Empresa();
    var m := e.BuscarJogoComMelhorAvaliacao();
    assert m == Erro(JogoNaoEncontrado);
    var p := e.BuscarJogoPorPeriodo(Some(Data(2021, 1, 1)), Some(Data(2020, 1, 1)));
    assert p == Erro(ArgumentoInvalido);
    var b := e.BuscarJogoPorCodigo(Some(" \t"));
    assert b == Erro(ArgumentoInvalido);
  }

  /** Three games rated 5: the one with the latest date wins. */
  lemma DesempatePorData()
    ensures var s := [JogoDe("X", 5.0, Data(2020, 1, 1)),
                      JogoDe("Y", 5.0, Data(2022, 5, 5)),
                      JogoDe("Z", 5.0, Data(2021, 12, 31))];
            IndiceMelhor(s) == 1
  {
    var s := [JogoDe("X", 5.0, Data(2020, 1, 1)),
              JogoDe("Y", 5.0, Data(2022, 5, 5)),
              JogoDe("Z", 5.0, Data(2021, 12, 31))];
    assert EhMelhor(s, 1);
    MelhorUnico(s, 1, IndiceMelhor(s));
  }

  /** Two games equal on rating and date: the first one admitted wins. */
  lemma DesempatePrimeiroAdmitido()
    ensures var s := [JogoDe("X", 4.0, Data(2020, 1, 1)), JogoDe("Y", 4.0, Data(2020, 1, 1))];
            IndiceMelhor(s) == 0
  {
    var s := [JogoDe("X", 4.0, Data(2020, 1, 1)), JogoDe("Y", 4.0, Data(2020, 1, 1))];
    assert EhMelhor(s, 0);
    MelhorUnico(s, 0, IndiceMelhor(s));
  }

  /** Both ends of the period are included; the day after the end is not. */
  lemma PeriodoInclusivo()
    ensures var a := JogoDe("A", 1.0, Data(2020, 1, 1));
            var b := JogoDe("B", 1.0, Data(2020, 6, 15));
            var c := JogoDe("C", 1.0, Data(2020, 12, 31));
            var d := JogoDe("D", 1.0, Data(2021, 1, 1));
            FiltrarPeriodo([a, b, c, d], Data(2020, 1, 1), Data(2020, 12, 31)) == [a, b, c]
  {
    var a := JogoDe("A", 1.0, Data(2020, 1, 1));
    var b := JogoDe("B", 1.0, Data(2020, 6, 15));
    var c := JogoDe("C", 1.0, Data(2020, 12, 31));
    var d := JogoDe("D", 1.0, Data(2021, 1, 1));
    var ini, fim := Data(2020, 1, 1), Data(2020, 12, 31);
    assert [a][..0] == [];
    assert FiltrarPeriodo([a], ini, fim) == [a];
    assert [a, b][..1] == [a];
    assert FiltrarPeriodo([a, b], ini, fim) == [a, b];
    assert [a, b, c][..2] == [a, b];
    assert FiltrarPeriodo([a, b, c], ini, fim) == [a, b, c];
    assert [a, b, c, d][..3] == [a, b, c];
  }
}
