/**
 * The A* engine: seeded with the start node, it pops the cheapest node,
 * stops when that node's state is the goal, and otherwise expands it and
 * merges its children into a sorted, duplicate-free frontier.
 */
module BuscaAEstrela {
  import opened Wrappers
  import opened Rede
  import opened Nos
  import opened Fronteira
  import opened Expansao

  /** __valida_estado: a line the table lacks raises KeyError; a station the line does not serve, "Estado inválido". */
  function ValidaEstado(m: Mapas, e: Estado): (r: Result<(), Erro>)
    requires RedeBemFormada(m)
    ensures r.Success? <==> EstadoValido(m, e)
    ensures r.Success? ==> e.estacao in m.estacoes
    ensures r.Failure? ==> r.error == (if e.linha in m.serve then EstadoInvalido else ChaveInexistente)
  {
    if e.linha !in m.serve then Failure(ChaveInexistente)
    else if e.estacao !in m.serve[e.linha] then Failure(EstadoInvalido)
    else Success(())
  }

  /**
   * One round of busca that does not stop: the frontier `antes` is nonempty,
   * its head is not the goal, and `depois` is what expanding that head leaves,
   * the rest of `antes` merged with the head's children, sorted and distinct.
   */
  ghost predicate Rodada(m: Mapas, final: Estado, antes: seq<No>, depois: seq<No>)
    requires RedeBemFormada(m)
  {
    && antes != [] && !VerificaObjetivo(final, antes[0]) && Expansivel(m, final, antes[0])
    && Ordenada(depois) && SemRepeticao(depois)
    && forall x :: x in depois <==> x in antes[1..] || EhFilho(m, final, antes[0], x)
  }

  /** Consecutive frontiers, before each pop, are linked by rounds. */
  ghost predicate Cadeia(m: Mapas, final: Estado, fs: seq<seq<No>>)
    requires RedeBemFormada(m)
  {
    forall k :: 0 <= k < |fs| - 1 ==> Rodada(m, final, fs[k], fs[k + 1])
  }

  lemma CadeiaEstendida(m: Mapas, final: Estado, fs: seq<seq<No>>, f: seq<No>)
    requires RedeBemFormada(m) && Cadeia(m, final, fs) && |fs| >= 1
    requires Rodada(m, final, fs[|fs| - 1], f)
    ensures Cadeia(m, final, fs + [f])
  {
    var gs := fs + [f];
    forall k | 0 <= k < |gs| - 1
      ensures Rodada(m, final, gs[k], gs[k + 1])
    {
      assert gs[k] == fs[k];
      if k + 1 < |fs| {
        assert gs[k + 1] == fs[k + 1];
      }
    }
  }

  class AEstrela {
    const rede: Mapas
    const estadoInicial: Estado
    const estadoFinal: Estado
    var fronteira: seq<No>

    ghost predicate Valid()
      reads this
    {
      && RedeBemFormada(rede)
      && EstadoValido(rede, estadoInicial) && EstadoValido(rede, estadoFinal)
      && FronteiraConsistente(rede, estadoInicial, estadoFinal, fronteira)
    }

    /** The part of __init__ after both states passed validation: the frontier holds the start node alone. */
    constructor (rede: Mapas, estadoInicial: Estado, estadoFinal: Estado)
      requires RedeBemFormada(rede) && EstadoValido(rede, estadoInicial) && EstadoValido(rede, estadoFinal)
      ensures Valid()
      ensures this.rede == rede && this.estadoInicial == estadoInicial && this.estadoFinal == estadoFinal
      ensures fronteira == [No(estadoInicial, 0, CalculaH(rede, estadoFinal, estadoInicial), [estadoInicial], None)]
    {
      this.rede := rede;
      this.estadoInicial := estadoInicial;
      this.estadoFinal := estadoFinal;
      fronteira := [NoInicial(rede, estadoInicial, estadoFinal)];
    }

    /** __retira_no_menor_custo: raises on an empty frontier, otherwise removes and returns the head, a cheapest node. */
    method RetiraNoMenorCusto() returns (r: Result<No, Erro>)
      requires Valid()
      modifies this
      ensures Valid()
      ensures old(fronteira) == [] ==> r == Failure(FronteiraVazia) && fronteira == old(fronteira)
      ensures old(fronteira) != [] ==> r == Success(old(fronteira)[0]) && fronteira == old(fronteira)[1..]
      ensures r.Success? ==> NoConsistente(rede, estadoInicial, estadoFinal, r.value)
      ensures r.Success? ==> forall x :: x in old(fronteira) ==> r.value.custo() <= x.custo()
    {
      if |fronteira| == 0 {
        return Failure(FronteiraVazia);
      }
      CaudaOrdenada(fronteira);
      assert forall x :: x in fronteira[1..] ==> x in fronteira;
      r := Success(fronteira[0]);
      fronteira := fronteira[1..];
    }

    /** __expande_no: the frontier becomes the distinct elements of itself plus the node's children, sorted by cost. */
    method ExpandeNo(no: No)
      requires Valid() && NoConsistente(rede, estadoInicial, estadoFinal, no)
      modifies this
      ensures Valid()
      ensures EstadoValido(rede, no.estado)
      ensures forall x :: x in fronteira <==> x in old(fronteira) || EhFilho(rede, estadoFinal, no, x)
    {
      EstadoAlcancadoValido(rede, estadoInicial, estadoFinal, no);
      var anexada := AnexaFilhos(rede, estadoFinal, no, fronteira);
      assert anexada == fronteira + anexada[|fronteira|..] by {
        assert anexada == anexada[..|fronteira|] + anexada[|fronteira|..];
      }
      ExpansaoConsistente(rede, estadoInicial, estadoFinal, no, fronteira, anexada);
      fronteira := OrdenaSemRepeticao(anexada);
    }

    /**
     * What a pop from the frontier `u` left: an error with the frontier empty,
     * or its head, a consistent cheapest node, with the rest as the frontier.
     */
    ghost predicate Retirada(u: seq<No>, retirado: Result<No, Erro>)
      reads this
      requires RedeBemFormada(rede) && estadoFinal.estacao in rede.estacoes
    {
      && (retirado.Failure? ==> u == [] && retirado.error == FronteiraVazia && fronteira == [])
      && (retirado.Success? ==>
            && u != [] && u[0] == retirado.value && fronteira == u[1..]
            && NoConsistente(rede, estadoInicial, estadoFinal, retirado.value)
            && forall x :: x in fronteira ==> retirado.value.custo() <= x.custo())
    }

    /** One round of busca's loop: expand the popped non-goal head of `u`, then pop again. */
    method Avanca(no: No, ghost u: seq<No>) returns (retirado: Result<No, Erro>, ghost depois: seq<No>)
      requires Valid() && NoConsistente(rede, estadoInicial, estadoFinal, no)
      requires u != [] && u[0] == no && fronteira == u[1..] && !VerificaObjetivo(estadoFinal, no)
      modifies this
      ensures Valid() && Rodada(rede, estadoFinal, u, depois)
      ensures Retirada(depois, retirado)
    {
      ExpandeNo(no);
      depois := fronteira;
      retirado := RetiraNoMenorCusto();
    }

    /**
     * The loop of busca: pop, and while the head is not the goal and the bound
     * allows, run a round. It stops on an empty frontier, a goal head or an
     * exhausted bound.
     */
    method Laco(combustivel: nat) returns (retirado: Result<No, Erro>, restante: nat, ghost fronteiras: seq<seq<No>>)
      requires Valid()
      modifies this
      ensures Valid() && |fronteiras| >= 1 && fronteiras[0] == old(fronteira)
      ensures Cadeia(rede, estadoFinal, fronteiras) && |fronteiras| + restante == combustivel + 1
      ensures Retirada(fronteiras[|fronteiras| - 1], retirado)
      ensures retirado.Success? && !VerificaObjetivo(estadoFinal, retirado.value) ==> restante == 0
    {
      fronteiras := [fronteira];
      retirado := RetiraNoMenorCusto();
      restante := combustivel;
      while retirado.Success? && !VerificaObjetivo(estadoFinal, retirado.value) && restante > 0
        invariant Valid() && |fronteiras| >= 1 && fronteiras[0] == old(fronteira)
        invariant Cadeia(rede, estadoFinal, fronteiras) && |fronteiras| + restante == combustivel + 1
        invariant Retirada(fronteiras[|fronteiras| - 1], retirado)
        decreases restante
      {
        restante := restante - 1;
        ghost var depois;
        retirado, depois := Avanca(retirado.value, fronteiras[|fronteiras| - 1]);
        CadeiaEstendida(rede, estadoFinal, fronteiras, depois);
        fronteiras := fronteiras + [depois];
      }
    }

    /** The outcome of busca once its loop has stopped after a pop from `u`. */
    method Desfecha(retirado: Result<No, Erro>, ghost u: seq<No>) returns (r: Desfecho)
      requires Valid() && Retirada(u, retirado)
      ensures r.Falha? <==> u == []
      ensures r.Solucao? <==> retirado.Success? && VerificaObjetivo(estadoFinal, retirado.value)
      ensures r.Solucao? ==>
        VerificaObjetivo(estadoFinal, u[0]) && r == Solucao(u[0].caminho, u[0].custo()) && fronteira == u[1..]
      ensures r.CombustivelEsgotado? ==> retirado.Success? && !VerificaObjetivo(estadoFinal, u[0])
      ensures r.Solucao? ==>
        |r.caminho| >= 1 && r.caminho[0] == estadoInicial && r.caminho[|r.caminho| - 1] == estadoFinal
      ensures r.Solucao? ==> Caminhada(rede, r.caminho) && r.custo == CustoCaminho(rede, r.caminho)
      ensures r.Solucao? ==> forall x :: x in fronteira ==> r.custo <= x.custo()
      ensures r.Falha? ==> r.erro == FronteiraVazia && fronteira == []
    {
      if retirado.Failure? {
        r := Falha(retirado.error);
      } else if VerificaObjetivo(estadoFinal, retirado.value) {
        SolucaoDoNo(rede, estadoInicial, estadoFinal, retirado.value);
        r := Solucao(retirado.value.caminho, retirado.value.custo());
      } else {
        r := CombustivelEsgotado;
      }
    }

    /**
     * busca: pop, test the goal, expand, for at most `combustivel` expansions.
     * `fronteiras` records the frontier before each pop; consecutive entries
     * are rounds, and the outcome is read off the last one, `u`: an empty `u`
     * is "Fronteira vazia.", a goal head is the route returned, and otherwise
     * the bound ran out. A route is a walk from the start to the goal (station
     * and line) and its cost is the walk's real time plus one penalty per line
     * change.
     */
    method Busca(combustivel: nat) returns (r: Desfecho, ghost fronteiras: seq<seq<No>>)
      requires Valid()
      modifies this
      ensures Valid()
      ensures |fronteiras| >= 1 && fronteiras[0] == old(fronteira) && Cadeia(rede, estadoFinal, fronteiras)
      ensures |fronteiras| <= combustivel + 1
      ensures var u := fronteiras[|fronteiras| - 1];
        && (r.Falha? <==> u == [])
        && (r.Solucao? ==>
              VerificaObjetivo(estadoFinal, u[0]) && r == Solucao(u[0].caminho, u[0].custo()) && fronteira == u[1..])
        && (r.CombustivelEsgotado? ==>
              |fronteiras| == combustivel + 1 && !VerificaObjetivo(estadoFinal, u[0]))
      ensures r.Solucao? ==>
        |r.caminho| >= 1 && r.caminho[0] == estadoInicial && r.caminho[|r.caminho| - 1] == estadoFinal
      ensures r.Solucao? ==> Caminhada(rede, r.caminho) && r.custo == CustoCaminho(rede, r.caminho)
      ensures r.Solucao? ==> forall x :: x in fronteira ==> r.custo <= x.custo()
      ensures r.Falha? ==> r.erro == FronteiraVazia && fronteira == []
    {
      var retirado, restante;
      retirado, restante, fronteiras := Laco(combustivel);
      r := Desfecha(retirado, fronteiras[|fronteiras| - 1]);
    }
  }

  /**
   * __init__: builds the network, validates the start and then the goal state,
   * and only then seeds the frontier.
   */
  method Cria(
    estadoInicial: Estado, estadoFinal: Estado,
    linhas: seq<Linha>, serve: map<Linha, set<Estacao>>, estacoes: seq<Estacao>,
    realBruto: Tabela, estimativaBruta: Tabela) returns (r: Result<AEstrela, Erro>)
    requires DadosBemFormados(linhas, serve, estacoes, realBruto, estimativaBruta)
    ensures var m := MontaRede(linhas, serve, estacoes, realBruto, estimativaBruta);
      && (r.Failure? <==> !EstadoValido(m, estadoInicial) || !EstadoValido(m, estadoFinal))
      && (r.Failure? ==> r.error == if !EstadoValido(m, estadoInicial) then ValidaEstado(m, estadoInicial).error
                                    else ValidaEstado(m, estadoFinal).error)
      && (r.Success? ==>
            fresh(r.value) && r.value.Valid() && r.value.rede == m &&
            r.value.estadoInicial == estadoInicial && r.value.estadoFinal == estadoFinal &&
            r.value.fronteira == [No(estadoInicial, 0, CalculaH(m, estadoFinal, estadoInicial), [estadoInicial], None)])
  {
    var m := MontaRede(linhas, serve, estacoes, realBruto, estimativaBruta);
    var vi := ValidaEstado(m, estadoInicial);
    if vi.Failure? {
      return Failure(vi.error);
    }
    var vf := ValidaEstado(m, estadoFinal);
    if vf.Failure? {
      return Failure(vf.error);
    }
    var a := new AEstrela(m, estadoInicial, estadoFinal);
    r := Success(a);
  }
}
