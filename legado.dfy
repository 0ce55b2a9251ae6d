/**
 * The older copy of the engine kept at the repository root. It shares the
 * node type, the cost formulas and the expansion rule, but validates
 * nothing: a state is only looked up, and an unknown key surfaces as a
 * KeyError wherever the lookup happens; popping an empty frontier is an
 * IndexError.
 */
module Legado {
  import opened Wrappers
  import opened Rede
  import opened Nos
  import opened Fronteira
  import opened Expansao

  /**
   * One round of busca that does not stop: the frontier `antes` is nonempty,
   * its head is not the goal and expands without a KeyError (its line is known,
   * or its station has no neighbour), and `depois` is the rest of `antes`
   * merged with the head's children, sorted and distinct.
   */
  ghost predicate Rodada(m: Mapas, final: Estado, antes: seq<No>, depois: seq<No>)
    requires RedeBemFormada(m)
  {
    && antes != [] && !VerificaObjetivo(final, antes[0])
    && antes[0].estado.estacao in m.estacoes && final.estacao in m.estacoes
    && (antes[0].estado.linha !in m.serve ==> Vizinhos(m, antes[0].estado.estacao) == [])
    && Ordenada(depois) && SemRepeticao(depois)
    && forall x :: x in depois <==>
         x in antes[1..] || (antes[0].estado.linha in m.serve && EhFilho(m, final, antes[0], x))
  }

  /** Consecutive frontiers, before each pop, are linked by rounds. */
  ghost predicate Cadeia(m: Mapas, final: Estado, fs: seq<seq<No>>)
    requires RedeBemFormada(m)
  {
    forall k :: 0 <= k < |fs| - 1 ==> Rodada(m, final, fs[k], fs[k + 1])
  }

  lemma CadeiaEstendida(m: Mapas, final: Estado, fs: seq<seq<No>>, f: seq<No>)
    requires RedeBemFormada(m) && Cadeia(m, final, fs) && |fs| >= 1
    requires Rodada(m, final, fs[|fs| - 1], f)
    ensures Cadeia(m, final, fs + [f])
  {
    var gs := fs + [f];
    forall k | 0 <= k < |gs| - 1
      ensures Rodada(m, final, gs[k], gs[k + 1])
    {
      assert gs[k] == fs[k];
      if k + 1 < |fs| {
        assert gs[k + 1] == fs[k + 1];
      }
    }
  }

  class AEstrela {
    const rede: Mapas
    const estadoInicial: Estado
    const estadoFinal: Estado
    var fronteira: seq<No>

    ghost predicate Valid()
      reads this
    {
      && RedeBemFormada(rede)
      && estadoInicial.estacao in rede.estacoes && estadoFinal.estacao in rede.estacoes
      && FronteiraConsistente(rede, estadoInicial, estadoFinal, fronteira)
    }

    /** __init__ once the start node's estimate could be looked up, which needs both stations to be labels. */
    constructor (rede: Mapas, estadoInicial: Estado, estadoFinal: Estado)
      requires RedeBemFormada(rede) && estadoInicial.estacao in rede.estacoes && estadoFinal.estacao in rede.estacoes
      ensures Valid()
      ensures this.rede == rede && this.estadoInicial == estadoInicial && this.estadoFinal == estadoFinal
      ensures fronteira == [No(estadoInicial, 0, CalculaH(rede, estadoFinal, estadoInicial), [estadoInicial], None)]
    {
      this.rede := rede;
      this.estadoInicial := estadoInicial;
      this.estadoFinal := estadoFinal;
      fronteira := [NoInicial(rede, estadoInicial, estadoFinal)];
    }

    /** __retira_no_menor_custo: `pop(0)`, an IndexError on an empty frontier, otherwise the cheapest node. */
    method RetiraNoMenorCusto() returns (r: Result<No, Erro>)
      requires Valid()
      modifies this
      ensures Valid()
      ensures old(fronteira) == [] ==> r == Failure(IndiceForaDosLimites) && fronteira == old(fronteira)
      ensures old(fronteira) != [] ==> r == Success(old(fronteira)[0]) && fronteira == old(fronteira)[1..]
      ensures r.Success? ==> NoConsistente(rede, estadoInicial, estadoFinal, r.value)
      ensures r.Success? ==> forall x :: x in old(fronteira) ==> r.value.custo() <= x.custo()
    {
      if |fronteira| == 0 {
        return Failure(IndiceForaDosLimites);
      }
      CaudaOrdenada(fronteira);
      assert forall x :: x in fronteira[1..] ==> x in fronteira;
      r := Success(fronteira[0]);
      fronteira := fronteira[1..];
    }

    /**
     * __expande_no: the line of the node is looked up once per neighbour, so a
     * line the table lacks raises KeyError exactly when the station has a
     * neighbour, and the frontier is left untouched. Otherwise the frontier
     * becomes the distinct elements of itself plus the node's children, sorted.
     */
    method ExpandeNo(no: No) returns (r: Result<(), Erro>)
      requires Valid() && NoConsistente(rede, estadoInicial, estadoFinal, no)
      modifies this
      ensures Valid()
      ensures r.Failure? <==> no.estado.linha !in rede.serve && Vizinhos(rede, no.estado.estacao) != []
      ensures r.Failure? ==> r.error == ChaveInexistente && fronteira == old(fronteira)
      ensures r.Success? ==>
        forall x :: x in fronteira <==> x in old(fronteira) || (no.estado.linha in rede.serve && EhFilho(rede, estadoFinal, no, x))
    {
      if no.estado.linha !in rede.serve {
        if Vizinhos(rede, no.estado.estacao) != [] {
          return Failure(ChaveInexistente);
        }
        fronteira := OrdenaSemRepeticao(fronteira);
        return Success(());
      }
      var anexada := AnexaFilhos(rede, estadoFinal, no, fronteira);
      assert anexada == fronteira + anexada[|fronteira|..] by {
        assert anexada == anexada[..|fronteira|] + anexada[|fronteira|..];
      }
      ExpansaoConsistente(rede, estadoInicial, estadoFinal, no, fronteira, anexada);
      fronteira := OrdenaSemRepeticao(anexada);
      r := Success(());
    }

    /**
     * Where the loop of busca stands after a pop from the frontier `u`: an
     * IndexError with the frontier empty; a KeyError raised while expanding
     * the head of `u`, a non-goal consistent node whose line is unknown and
     * whose station has a neighbour, with the rest of `u` left as the
     * frontier; or the head, a consistent cheapest node, with the rest as the
     * frontier.
     */
    ghost predicate Retirada(u: seq<No>, retirado: Result<No, Erro>)
      reads this
      requires RedeBemFormada(rede) && estadoFinal.estacao in rede.estacoes
    {
      && (retirado.Failure? ==> retirado.error == IndiceForaDosLimites || retirado.error == ChaveInexistente)
      && (retirado == Failure(IndiceForaDosLimites) ==> u == [] && fronteira == [])
      && (retirado == Failure(ChaveInexistente) ==>
            && u != [] && fronteira == u[1..] && !VerificaObjetivo(estadoFinal, u[0])
            && NoConsistente(rede, estadoInicial, estadoFinal, u[0]) && u[0].estado.estacao in rede.estacoes
            && u[0].estado.linha !in rede.serve && Vizinhos(rede, u[0].estado.estacao) != [])
      && (retirado.Success? ==>
            && u != [] && u[0] == retirado.value && fronteira == u[1..]
            && NoConsistente(rede, estadoInicial, estadoFinal, retirado.value)
            && forall x :: x in fronteira ==> retirado.value.custo() <= x.custo())
    }

    /**
     * One round of busca's loop: expand the popped non-goal head of `u`, then
     * pop again. A KeyError from the expansion ends the round early, and no
     * new frontier is recorded.
     */
    method Avanca(no: No, ghost u: seq<No>) returns (retirado: Result<No, Erro>, ghost depois: seq<No>)
      requires Valid() && NoConsistente(rede, estadoInicial, estadoFinal, no)
      requires u != [] && u[0] == no && fronteira == u[1..] && !VerificaObjetivo(estadoFinal, no)
      modifies this
      ensures Valid()
      ensures retirado == Failure(ChaveInexistente) ==> Retirada(u, retirado)
      ensures retirado != Failure(ChaveInexistente) ==> Rodada(rede, estadoFinal, u, depois) && Retirada(depois, retirado)
    {
      var expandido := ExpandeNo(no);
      if expandido.Failure? {
        return Failure(ChaveInexistente), u;
      }
      depois := fronteira;
      retirado := RetiraNoMenorCusto();
    }

    /** The outcome of busca once its loop has stopped after a pop from `u`. */
    method Desfecha(retirado: Result<No, Erro>, ghost u: seq<No>) returns (r: Desfecho)
      requires Valid() && Retirada(u, retirado)
      ensures r == Falha(IndiceForaDosLimites) <==> u == []
      ensures r == Falha(ChaveInexistente) <==> retirado == Failure(ChaveInexistente)
      ensures r == Falha(ChaveInexistente) ==>
        && u != [] && !VerificaObjetivo(estadoFinal, u[0]) && fronteira == u[1..]
        && u[0].estado.estacao in rede.estacoes
        && u[0].estado.linha !in rede.serve && Vizinhos(rede, u[0].estado.estacao) != []
      ensures r.Solucao? <==> retirado.Success? && VerificaObjetivo(estadoFinal, retirado.value)
      ensures r.Solucao? ==>
        VerificaObjetivo(estadoFinal, u[0]) && r == Solucao(u[0].caminho, u[0].custo()) && fronteira == u[1..]
      ensures r.CombustivelEsgotado? ==> retirado.Success? && !VerificaObjetivo(estadoFinal, u[0])
      ensures r.Solucao? ==>
        |r.caminho| >= 1 && r.caminho[0] == estadoInicial && r.caminho[|r.caminho| - 1] == estadoFinal
      ensures r.Solucao? ==> Caminhada(rede, r.caminho) && r.custo == CustoCaminho(rede, r.caminho)
      ensures r.Solucao? ==> forall x :: x in fronteira ==> r.custo <= x.custo()
      ensures r.Falha? ==>
        || (r.erro == IndiceForaDosLimites && fronteira == [])
        || (r.erro == ChaveInexistente && estadoInicial.linha !in rede.serve)
    {
      if retirado.Failure? {
        if retirado.error == ChaveInexistente {
          LinhaDesconhecidaSoNoInicio(rede, estadoInicial, estadoFinal, u[0]);
        }
        r := Falha(retirado.error);
      } else if VerificaObjetivo(estadoFinal, retirado.value) {
        SolucaoDoNo(rede, estadoInicial, estadoFinal, retirado.value);
        r := Solucao(retirado.value.caminho, retirado.value.custo());
      } else {
        r := CombustivelEsgotado;
      }
    }

    /**
     * The loop of busca: pop, and while the head is not the goal and the bound
     * allows, run a round. It stops on an error, a goal head or an exhausted bound.
     */
    method Laco(combustivel: nat) returns (retirado: Result<No, Erro>, restante: nat, ghost fronteiras: seq<seq<No>>)
      requires Valid()
      modifies this
      ensures Valid() && |fronteiras| >= 1 && fronteiras[0] == old(fronteira)
      ensures Cadeia(rede, estadoFinal, fronteiras)
      ensures |fronteiras| + restante == combustivel + (if retirado == Failure(ChaveInexistente) then 0 else 1)
      ensures Retirada(fronteiras[|fronteiras| - 1], retirado)
      ensures retirado.Success? && !VerificaObjetivo(estadoFinal, retirado.value) ==> restante == 0
    {
      fronteiras := [fronteira];
      retirado := RetiraNoMenorCusto();
      restante := combustivel;
      while retirado.Success? && !VerificaObjetivo(estadoFinal, retirado.value) && restante > 0
        invariant Valid() && |fronteiras| >= 1 && fronteiras[0] == old(fronteira)
        invariant Cadeia(rede, estadoFinal, fronteiras)
        invariant |fronteiras| + restante == combustivel + (if retirado == Failure(ChaveInexistente) then 0 else 1)
        invariant Retirada(fronteiras[|fronteiras| - 1], retirado)
        decreases restante
      {
        restante := restante - 1;
        ghost var depois;
        retirado, depois := Avanca(retirado.value, fronteiras[|fronteiras| - 1]);
        if retirado != Failure(ChaveInexistente) {
          CadeiaEstendida(rede, estadoFinal, fronteiras, depois);
          fronteiras := fronteiras + [depois];
        }
      }
    }

    /**
     * busca, for at most `combustivel` expansions. `fronteiras` records the
     * frontier before each pop; consecutive entries are rounds, and the
     * outcome is read off the last one, `u`: an empty `u` is the IndexError of
     * `pop(0)`, a goal head is the route returned, a head whose expansion
     * raised is the KeyError, and otherwise the bound ran out. A route ends in
     * the goal and is a walk of the given cost, as in the validated engine; a
     * KeyError can only come from a start state whose line the line table
     * lacks.
     */
    method Busca(combustivel: nat) returns (r: Desfecho, ghost fronteiras: seq<seq<No>>)
      requires Valid()
      modifies this
      ensures Valid()
      ensures |fronteiras| >= 1 && fronteiras[0] == old(fronteira) && Cadeia(rede, estadoFinal, fronteiras)
      ensures |fronteiras| <= combustivel + 1
      ensures var u := fronteiras[|fronteiras| - 1];
        && (r == Falha(IndiceForaDosLimites) <==> u == [])
        && (r == Falha(ChaveInexistente) ==>
              && u != [] && !VerificaObjetivo(estadoFinal, u[0]) && fronteira == u[1..] && |fronteiras| <= combustivel
              && u[0].estado.estacao in rede.estacoes
              && u[0].estado.linha !in rede.serve && Vizinhos(rede, u[0].estado.estacao) != [])
        && (r.Solucao? ==>
              VerificaObjetivo(estadoFinal, u[0]) && r == Solucao(u[0].caminho, u[0].custo()) && fronteira == u[1..])
        && (r.CombustivelEsgotado? ==>
              |fronteiras| == combustivel + 1 && !VerificaObjetivo(estadoFinal, u[0]))
      ensures r.Solucao? ==>
        |r.caminho| >= 1 && r.caminho[0] == estadoInicial && r.caminho[|r.caminho| - 1] == estadoFinal
      ensures r.Solucao? ==> Caminhada(rede, r.caminho) && r.custo == CustoCaminho(rede, r.caminho)
      ensures r.Solucao? ==> forall x :: x in fronteira ==> r.custo <= x.custo()
      ensures r.Falha? ==>
        || (r.erro == IndiceForaDosLimites && fronteira == [])
        || (r.erro == ChaveInexistente && estadoInicial.linha !in rede.serve)
    {
      var retirado, restante;
      retirado, restante, fronteiras := Laco(combustivel);
      r := Desfecha(retirado, fronteiras[|fronteiras| - 1]);
    }
  }
  /** __init__: the start node's estimate is looked up in the estimate table, a KeyError unless both stations are labels. */
  method Cria(
    estadoInicial: Estado, estadoFinal: Estado,
    linhas: seq<Linha>, serve: map<Linha, set<Estacao>>, estacoes: seq<Estacao>,
    realBruto: Tabela, estimativaBruta: Tabela) returns (r: Result<AEstrela, Erro>)
    requires DadosBemFormados(linhas, serve, estacoes, realBruto, estimativaBruta)
    ensures var m := MontaRede(linhas, serve, estacoes, realBruto, estimativaBruta);
      && (r.Failure? <==> estadoInicial.estacao !in m.estacoes || estadoFinal.estacao !in m.estacoes)
      && (r.Failure? ==> r.error == ChaveInexistente)
      && (r.Success? ==>
            fresh(r.value) && r.value.Valid() && r.value.rede == m &&
            r.value.estadoInicial == estadoInicial && r.value.estadoFinal == estadoFinal &&
            r.value.fronteira == [No(estadoInicial, 0, CalculaH(m, estadoFinal, estadoInicial), [estadoInicial], None)])
  {
    var m := MontaRede(linhas, serve, estacoes, realBruto, estimativaBruta);
    if estadoInicial.estacao !in m.estacoes || estadoFinal.estacao !in m.estacoes {
      return Failure(ChaveInexistente);
    }
    var a := new AEstrela(m, estadoInicial, estadoFinal);
    r := Success(a);
  }
}
