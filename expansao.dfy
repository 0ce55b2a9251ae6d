/**
 * Expanding a node: the cost formulas, the successor rule (a move along the
 * current line, or a change of line at the current station), the child
 * nodes, and the invariant every frontier node keeps.
 */
module Expansao {
  import opened Wrappers
  import opened Rede
  import opened Nos
  import opened Fronteira

  /** How a search ends: a route and its cost, a raised exception, or the step bound ran out. */
  datatype Desfecho = Solucao(caminho: seq<Estado>, custo: nat) | Falha(erro: Erro) | CombustivelEsgotado

  /** __calcula_g: the real time from the parent's station, the penalty if the line changed, plus the parent's g. */
  function CalculaG(m: Mapas, estado: Estado, pai: No): (g: nat)
    requires RedeBemFormada(m) && estado.estacao in m.estacoes && pai.estado.estacao in m.estacoes
    requires TempoReal(m, estado.estacao, pai.estado.estacao).Some?
    ensures g == pai.g + CustoPasso(m, pai.estado, estado)
    ensures g >= pai.g
    ensures estado.linha != pai.estado.linha ==> g >= pai.g + TempoBaldeacao
  {
    TempoReal(m, estado.estacao, pai.estado.estacao).value
      + (if estado.linha != pai.estado.linha then TempoBaldeacao else 0)
      + pai.g
  }

  /** __calcula_h: the estimated time to the goal's station, plus the penalty if the goal is on another line. */
  function CalculaH(m: Mapas, final: Estado, estado: Estado): (h: nat)
    requires RedeBemFormada(m) && estado.estacao in m.estacoes && final.estacao in m.estacoes
    ensures h == TempoEstimativa(m, final.estacao, estado.estacao)
      + (if estado.linha != final.linha then TempoBaldeacao else 0)
    ensures estado == final ==> h == 0
    ensures estado.linha != final.linha ==> h >= TempoBaldeacao
  {
    var i, j := Indice(m.estacoes, estado.estacao), Indice(m.estacoes, final.estacao);
    assert m.tempoEstimativa[i][j] == m.tempoEstimativa[j][i];
    assert m.tempoEstimativa[j][j] == Some(0);
    TempoEstimativa(m, estado.estacao, final.estacao)
      + (if estado.linha != final.linha then TempoBaldeacao else 0)
  }

  /** __verifica_objetivo: station and line both match. */
  predicate VerificaObjetivo(final: Estado, no: No)
  {
    final == no.estado
  }

  /** The node __expande_no builds for a successor state. */
  function Filho(m: Mapas, final: Estado, no: No, estado: Estado): No
    requires RedeBemFormada(m) && no.estado.estacao in m.estacoes && estado.estacao in m.estacoes
    requires final.estacao in m.estacoes
    requires TempoReal(m, estado.estacao, no.estado.estacao).Some?
  {
    No(estado, CalculaG(m, estado, no), CalculaH(m, final, estado), no.caminho + [estado], Some(no.estado))
  }

  /** The lookups an expansion of `no` makes all exist. */
  ghost predicate Expansivel(m: Mapas, final: Estado, no: No)
  {
    no.estado.estacao in m.estacoes && no.estado.linha in m.serve && final.estacao in m.estacoes
  }

  // ---------------------------------------------------------------------------
  // Successor states
  // ---------------------------------------------------------------------------

  /** A neighbour in viz served by the current line, reached on that line. */
  ghost predicate MesmaLinhaEm(m: Mapas, atual: Estado, viz: seq<Estacao>, s: Estado)
    requires atual.linha in m.serve
  {
    s.linha == atual.linha && s.estacao in viz && s.estacao in m.serve[atual.linha]
  }

  /** Some neighbour in viz is not served by the current line. */
  ghost predicate TemForaDaLinha(m: Mapas, atual: Estado, viz: seq<Estacao>)
    requires atual.linha in m.serve
  {
    exists v :: v in viz && v !in m.serve[atual.linha]
  }

  /** The current station on another line among ls that also serves it. */
  ghost predicate BaldeacaoEm(m: Mapas, atual: Estado, ls: seq<Linha>, s: Estado)
  {
    s.estacao == atual.estacao && s.linha in ls && s.linha != atual.linha
      && s.linha in m.serve && atual.estacao in m.serve[s.linha]
  }

  /** The states the loops propose after examining the neighbours in viz. */
  ghost predicate CandidatoEm(m: Mapas, atual: Estado, viz: seq<Estacao>, s: Estado)
    requires atual.linha in m.serve
  {
    MesmaLinhaEm(m, atual, viz, s) || (TemForaDaLinha(m, atual, viz) && BaldeacaoEm(m, atual, m.linhas, s))
  }

  /** The successor relation of the search: b is proposed when a is expanded. */
  ghost predicate Passo(m: Mapas, a: Estado, b: Estado)
    requires RedeBemFormada(m)
  {
    a.estacao in m.estacoes && a.linha in m.serve && CandidatoEm(m, a, Vizinhos(m, a.estacao), b)
  }

  /** A successor state carries a real time from the state it leaves: the edge, or the zero diagonal. */
  lemma PassoTemTempo(m: Mapas, a: Estado, b: Estado)
    requires RedeBemFormada(m) && Passo(m, a, b)
    ensures b.estacao in m.estacoes && TempoReal(m, b.estacao, a.estacao).Some?
  {
    if !MesmaLinhaEm(m, a, Vizinhos(m, a.estacao), b) {
      var k := Indice(m.estacoes, a.estacao);
      assert m.tempoReal[k][k] == Some(0);
    }
  }

  /**
   * The successors, stated on the tables: another station with a real-time edge and on the
   * current line, reached on that line; or, when some neighbour is off the current line, the
   * current station on each other line that serves it.
   */
  lemma PassoCaracterizado(m: Mapas, a: Estado, b: Estado)
    requires RedeBemFormada(m) && a.estacao in m.estacoes && a.linha in m.serve
    ensures Passo(m, a, b) <==>
      || (b.linha == a.linha && b.estacao != a.estacao && b.estacao in m.serve[a.linha]
          && b.estacao in m.estacoes && Ligacao(TempoReal(m, b.estacao, a.estacao)))
      || (b.estacao == a.estacao && b.linha != a.linha && b.linha in m.serve && a.estacao in m.serve[b.linha]
          && exists v :: v in m.estacoes && Ligacao(TempoReal(m, v, a.estacao)) && v !in m.serve[a.linha])
  {
    NaoEhVizinhaDeSi(m, a.estacao);
    var viz := Vizinhos(m, a.estacao);
    assert MesmaLinhaEm(m, a, viz, b) <==>
      (b.linha == a.linha && b.estacao != a.estacao && b.estacao in m.serve[a.linha]
        && b.estacao in m.estacoes && Ligacao(TempoReal(m, b.estacao, a.estacao)));
    assert TemForaDaLinha(m, a, viz) <==>
      exists v :: v in m.estacoes && Ligacao(TempoReal(m, v, a.estacao)) && v !in m.serve[a.linha]
    by {
      if TemForaDaLinha(m, a, viz) {
        var v :| v in viz && v !in m.serve[a.linha];
        assert v in m.estacoes && Ligacao(TempoReal(m, v, a.estacao));
      }
      if exists v :: v in m.estacoes && Ligacao(TempoReal(m, v, a.estacao)) && v !in m.serve[a.linha] {
        var v :| v in m.estacoes && Ligacao(TempoReal(m, v, a.estacao)) && v !in m.serve[a.linha];
        assert v in viz;
      }
    }
    assert BaldeacaoEm(m, a, m.linhas, b) <==>
      (b.estacao == a.estacao && b.linha != a.linha && b.linha in m.serve && a.estacao in m.serve[b.linha]);
  }

  /** Every successor state is valid: its station is served by its line. */
  lemma PassoLevaAEstadoValido(m: Mapas, a: Estado, b: Estado)
    requires RedeBemFormada(m) && Passo(m, a, b)
    ensures EstadoValido(m, b)
  {
    if MesmaLinhaEm(m, a, Vizinhos(m, a.estacao), b) {
      assert b.linha == a.linha;
    } else {
      assert BaldeacaoEm(m, a, m.linhas, b);
    }
  }

  // ---------------------------------------------------------------------------
  // Child nodes
  // ---------------------------------------------------------------------------

  /** A proposed state carries a real time from the expanded state: the edge, or the zero diagonal. */
  lemma CandidatoTemTempo(m: Mapas, atual: Estado, viz: seq<Estacao>, s: Estado)
    requires RedeBemFormada(m) && atual.estacao in m.estacoes && atual.linha in m.serve
    requires forall v :: v in viz ==> v in Vizinhos(m, atual.estacao)
    requires CandidatoEm(m, atual, viz, s)
    ensures s.estacao in m.estacoes && TempoReal(m, s.estacao, atual.estacao).Some?
  {
    if MesmaLinhaEm(m, atual, viz, s) {
      assert s.estacao in Vizinhos(m, atual.estacao);
    } else {
      DiagonalReal(m, atual.estacao);
    }
  }

  /** c is appended while the loops examine the neighbours in viz. */
  ghost predicate EhFilhoEm(m: Mapas, final: Estado, no: No, viz: seq<Estacao>, c: No)
    requires RedeBemFormada(m) && Expansivel(m, final, no)
    requires forall v :: v in viz ==> v in Vizinhos(m, no.estado.estacao)
  {
    CandidatoEm(m, no.estado, viz, c.estado) && no.estadoPai != Some(c.estado)
      && (CandidatoTemTempo(m, no.estado, viz, c.estado); c == Filho(m, final, no, c.estado))
  }

  /** c is appended by the line-transfer loop over the lines in ls. */
  ghost predicate EhBaldeacaoEm(m: Mapas, final: Estado, no: No, ls: seq<Linha>, c: No)
    requires RedeBemFormada(m) && Expansivel(m, final, no)
  {
    BaldeacaoEm(m, no.estado, ls, c.estado) && no.estadoPai != Some(c.estado)
      && (DiagonalReal(m, no.estado.estacao); c == Filho(m, final, no, c.estado))
  }

  /** c is a child of no: a successor state other than no's predecessor, with its g, h, path and parent. */
  ghost predicate EhFilho(m: Mapas, final: Estado, no: No, c: No)
    requires RedeBemFormada(m) && Expansivel(m, final, no)
  {
    Passo(m, no.estado, c.estado) && no.estadoPai != Some(c.estado)
      && (PassoTemTempo(m, no.estado, c.estado); c == Filho(m, final, no, c.estado))
  }

  lemma PrefixoMaisUm<T>(s: seq<T>, i: nat)
    requires i < |s|
    ensures s[..i + 1] == s[..i] + [s[i]]
    ensures forall x :: x in s[..i + 1] <==> x in s[..i] || x == s[i]
  {
    assert s[..i + 1] == s[..i] + [s[i]];
  }

  lemma CandidatoMesmaLinha(m: Mapas, atual: Estado, viz: seq<Estacao>, i: nat)
    requires atual.linha in m.serve && i < |viz| && viz[i] in m.serve[atual.linha]
    ensures forall s :: CandidatoEm(m, atual, viz[..i + 1], s) <==>
      CandidatoEm(m, atual, viz[..i], s) || s == Estado(viz[i], atual.linha)
  {
    PrefixoMaisUm(viz, i);
    assert TemForaDaLinha(m, atual, viz[..i + 1]) <==> TemForaDaLinha(m, atual, viz[..i]);
    forall s
      ensures CandidatoEm(m, atual, viz[..i + 1], s) <==>
        CandidatoEm(m, atual, viz[..i], s) || s == Estado(viz[i], atual.linha)
    {
      assert MesmaLinhaEm(m, atual, viz[..i + 1], s) <==>
        MesmaLinhaEm(m, atual, viz[..i], s) || s == Estado(viz[i], atual.linha);
    }
  }

  lemma CandidatoForaDaLinha(m: Mapas, atual: Estado, viz: seq<Estacao>, i: nat)
    requires atual.linha in m.serve && i < |viz| && viz[i] !in m.serve[atual.linha]
    ensures forall s :: CandidatoEm(m, atual, viz[..i + 1], s) <==>
      CandidatoEm(m, atual, viz[..i], s) || BaldeacaoEm(m, atual, m.linhas, s)
  {
    PrefixoMaisUm(viz, i);
    assert TemForaDaLinha(m, atual, viz[..i + 1]);
  }

  /** Extending a sequence adds the extension's elements to every suffix that starts inside the original. */
  lemma ExtensaoSufixo(f: seq<No>, g: seq<No>, k: nat)
    requires k <= |f| <= |g| && g[..|f|] == f
    ensures g[..k] == f[..k]
    ensures forall c :: c in g[k..] <==> c in f[k..] || c in g[|f|..]
  {
    assert g[k..] == f[k..] + g[|f|..];
  }

  /**
   * The inner loop of __expande_no: for a neighbour off the current line, the current
   * station on every other line serving it, skipping the predecessor state.
   */
  method AnexaBaldeacoes(m: Mapas, final: Estado, no: No, fronteira: seq<No>) returns (f: seq<No>)
    requires RedeBemFormada(m) && Expansivel(m, final, no)
    ensures |fronteira| <= |f| && f[..|fronteira|] == fronteira
    ensures forall c :: c in f[|fronteira|..] <==> EhBaldeacaoEm(m, final, no, m.linhas, c)
  {
    var estacaoAtual, linhaAtual := no.estado.estacao, no.estado.linha;
    var k := |fronteira|;
    f := fronteira;
    for j := 0 to |m.linhas|
      invariant k <= |f| && f[..k] == fronteira
      invariant forall c :: c in f[k..] <==> EhBaldeacaoEm(m, final, no, m.linhas[..j], c)
    {
      var linha := m.linhas[j];
      PrefixoMaisUm(m.linhas, j);
      if linha != linhaAtual && estacaoAtual in m.serve[linha] {
        var estado := Estado(estacaoAtual, linha);
        if no.estadoPai != Some(estado) {
          var filho := Filho(m, final, no, estado);
          assert (f + [filho])[k..] == f[k..] + [filho];
          f := f + [filho];
        }
      }
    }
    assert m.linhas[..|m.linhas|] == m.linhas;
  }

  /**
   * __expande_no's nested loops: for each neighbour, the same-line child or the
   * transfer children, skipping the predecessor state, appended to the frontier.
   */
  method AnexaFilhos(m: Mapas, final: Estado, no: No, fronteira: seq<No>) returns (f: seq<No>)
    requires RedeBemFormada(m) && Expansivel(m, final, no)
    ensures |fronteira| <= |f| && f[..|fronteira|] == fronteira
    ensures forall c :: c in f[|fronteira|..] <==> EhFilho(m, final, no, c)
  {
    var estacaoAtual, linhaAtual := no.estado.estacao, no.estado.linha;
    var vizinhas := Vizinhos(m, estacaoAtual);
    var k := |fronteira|;
    f := fronteira;
    for i := 0 to |vizinhas|
      invariant k <= |f| && f[..k] == fronteira
      invariant forall c :: c in f[k..] <==> EhFilhoEm(m, final, no, vizinhas[..i], c)
    {
      var estacao := vizinhas[i];
      PrefixoMaisUm(vizinhas, i);
      if estacao in m.serve[linhaAtual] {
        CandidatoMesmaLinha(m, no.estado, vizinhas, i);
        var estado := Estado(estacao, linhaAtual);
        if no.estadoPai != Some(estado) {
          var filho := Filho(m, final, no, estado);
          assert (f + [filho])[k..] == f[k..] + [filho];
          f := f + [filho];
        }
      } else {
        CandidatoForaDaLinha(m, no.estado, vizinhas, i);
        var g := AnexaBaldeacoes(m, final, no, f);
        ExtensaoSufixo(f, g, k);
        f := g;
      }
    }
    assert vizinhas[..|vizinhas|] == vizinhas;
  }

  // ---------------------------------------------------------------------------
  // Walks, their cost, and the invariant of frontier nodes
  // ---------------------------------------------------------------------------

  /**
   * The time one step adds: the real time of the edge (zero for a transfer), plus the
   * penalty on a line change. A step always has a defined time (PassoTemTempo), so the
   * fallback for an unknown station or a missing cell never applies along a walk.
   */
  ghost function CustoPasso(m: Mapas, a: Estado, b: Estado): nat
    requires RedeBemFormada(m)
  {
    var t := if a.estacao in m.estacoes && b.estacao in m.estacoes then TempoReal(m, b.estacao, a.estacao) else None;
    (if t.Some? then t.value else 0) + (if b.linha != a.linha then TempoBaldeacao else 0)
  }

  /** A sequence of successor steps that never undoes the step before it. */
  ghost predicate Caminhada(m: Mapas, p: seq<Estado>)
    requires RedeBemFormada(m)
  {
    && (forall i :: 0 <= i < |p| - 1 ==> Passo(m, p[i], p[i + 1]))
    && (forall i :: 0 <= i < |p| - 2 ==> p[i + 2] != p[i])
  }

  /** The sum of the step costs along a path. */
  ghost function CustoCaminho(m: Mapas, p: seq<Estado>): nat
    requires RedeBemFormada(m)
    decreases |p|
  {
    if |p| <= 1 then 0
    else CustoCaminho(m, p[..|p| - 1]) + CustoPasso(m, p[|p| - 2], p[|p| - 1])
  }

  /**
   * What every node on the frontier satisfies: its path is a walk from the start
   * ending in its own state, its predecessor is the path's second-to-last state,
   * g is the walk's cost and h the estimate from its state.
   */
  ghost predicate NoConsistente(m: Mapas, inicial: Estado, final: Estado, n: No)
    requires RedeBemFormada(m) && final.estacao in m.estacoes
  {
    var p := n.caminho;
    |p| >= 1 && p[0] == inicial && p[|p| - 1] == n.estado
      && n.estadoPai == (if |p| == 1 then None else Some(p[|p| - 2]))
      && inicial.estacao in m.estacoes
      && n.estado.estacao in m.estacoes
      && Caminhada(m, p)
      && n.g == CustoCaminho(m, p)
      && n.h == CalculaH(m, final, n.estado)
  }

  /** Sorted, duplicate-free, and every node consistent. */
  ghost predicate FronteiraConsistente(m: Mapas, inicial: Estado, final: Estado, f: seq<No>)
    requires RedeBemFormada(m) && final.estacao in m.estacoes
  {
    Ordenada(f) && SemRepeticao(f) && forall n :: n in f ==> NoConsistente(m, inicial, final, n)
  }

  /** The node the frontier is seeded with: the start state, g = 0, h from the start, path [start], no predecessor. */
  function NoInicial(m: Mapas, inicial: Estado, final: Estado): (n: No)
    requires RedeBemFormada(m) && inicial.estacao in m.estacoes && final.estacao in m.estacoes
    ensures NoConsistente(m, inicial, final, n)
    ensures n.estado == inicial && n.g == 0 && n.caminho == [inicial] && n.estadoPai == None
  {
    No(inicial, 0, CalculaH(m, final, inicial), [inicial], None)
  }

  /** A child's path extends its parent's by its own state, its parent is the expanded state, and its costs follow the formulas. */
  lemma PropriedadesDoFilho(m: Mapas, final: Estado, no: No, c: No)
    requires RedeBemFormada(m) && Expansivel(m, final, no) && EhFilho(m, final, no, c)
    ensures c.caminho == no.caminho + [c.estado] && c.estadoPai == Some(no.estado)
    ensures Passo(m, no.estado, c.estado) && no.estadoPai != Some(c.estado)
    ensures c.g == no.g + CustoPasso(m, no.estado, c.estado)
    ensures EstadoValido(m, c.estado) && c.estado.estacao in m.estacoes
    ensures c.g == TempoReal(m, c.estado.estacao, no.estado.estacao).value
      + (if c.estado.linha != no.estado.linha then TempoBaldeacao else 0) + no.g
    ensures c.h == TempoEstimativa(m, c.estado.estacao, final.estacao)
      + (if c.estado.linha != final.linha then TempoBaldeacao else 0)
    ensures c.estado.linha == no.estado.linha ==> c.estado.estacao != no.estado.estacao && c.g > no.g
    ensures c.estado.estacao == no.estado.estacao ==>
      c.estado.linha != no.estado.linha && c.g == no.g + TempoBaldeacao
  {
    PassoLevaAEstadoValido(m, no.estado, c.estado);
    PassoCaracterizado(m, no.estado, c.estado);
    var k := Indice(m.estacoes, no.estado.estacao);
    assert m.tempoReal[k][k] == Some(0);
  }

  /** A walk extended by a step that does not undo its last step is a walk. */
  lemma CaminhadaEstendida(m: Mapas, p: seq<Estado>, b: Estado)
    requires RedeBemFormada(m) && Caminhada(m, p) && |p| >= 1
    requires Passo(m, p[|p| - 1], b) && (|p| >= 2 ==> b != p[|p| - 2])
    ensures Caminhada(m, p + [b])
  {
    var q := p + [b];
    forall i | 0 <= i < |q| - 1
      ensures Passo(m, q[i], q[i + 1])
    {
      if i < |p| - 1 {
        assert q[i] == p[i] && q[i + 1] == p[i + 1];
      } else {
        assert q[i] == p[|p| - 1] && q[i + 1] == b;
      }
    }
    forall i | 0 <= i < |q| - 2
      ensures q[i + 2] != q[i]
    {
      if i < |p| - 2 {
        assert q[i] == p[i] && q[i + 2] == p[i + 2];
      } else {
        assert q[i] == p[|p| - 2] && q[i + 2] == b;
      }
    }
  }

  /** A child of a consistent node is consistent. */
  lemma FilhoConsistente(m: Mapas, inicial: Estado, final: Estado, no: No, c: No)
    requires RedeBemFormada(m) && Expansivel(m, final, no)
    requires NoConsistente(m, inicial, final, no) && EhFilho(m, final, no, c)
    ensures NoConsistente(m, inicial, final, c)
  {
    PropriedadesDoFilho(m, final, no, c);
    var p, q := no.caminho, c.caminho;
    CaminhadaEstendida(m, p, c.estado);
    assert q[..|q| - 1] == p;
  }

  /** Every state a consistent node reaches is valid when the start is. */
  lemma EstadoAlcancadoValido(m: Mapas, inicial: Estado, final: Estado, n: No)
    requires RedeBemFormada(m) && final.estacao in m.estacoes
    requires EstadoValido(m, inicial) && NoConsistente(m, inicial, final, n)
    ensures EstadoValido(m, n.estado)
  {
    var p := n.caminho;
    if |p| > 1 {
      PassoLevaAEstadoValido(m, p[|p| - 2], p[|p| - 1]);
    }
  }

  /** Only the start state can sit on a line the line table lacks: every later state is reached by a step. */
  lemma LinhaDesconhecidaSoNoInicio(m: Mapas, inicial: Estado, final: Estado, n: No)
    requires RedeBemFormada(m) && final.estacao in m.estacoes
    requires NoConsistente(m, inicial, final, n) && n.estado.linha !in m.serve
    ensures n.estado == inicial && n.caminho == [inicial]
  {
    var p := n.caminho;
    if |p| > 1 {
      PassoLevaAEstadoValido(m, p[|p| - 2], p[|p| - 1]);
      assert false;
    }
  }

  /** A consistent node at the goal is a route: a walk from the start to the goal whose cost is the node's cost. */
  lemma SolucaoDoNo(m: Mapas, inicial: Estado, final: Estado, n: No)
    requires RedeBemFormada(m) && final.estacao in m.estacoes
    requires NoConsistente(m, inicial, final, n) && VerificaObjetivo(final, n)
    ensures |n.caminho| >= 1 && n.caminho[0] == inicial && n.caminho[|n.caminho| - 1] == final
    ensures Caminhada(m, n.caminho) && n.custo() == CustoCaminho(m, n.caminho)
  {
  }

  /** Merging the children of a consistent node into a consistent frontier keeps every node consistent. */
  lemma ExpansaoConsistente(m: Mapas, inicial: Estado, final: Estado, no: No, antes: seq<No>, depois: seq<No>)
    requires RedeBemFormada(m) && Expansivel(m, final, no) && NoConsistente(m, inicial, final, no)
    requires forall n :: n in antes ==> NoConsistente(m, inicial, final, n)
    requires forall x :: x in depois ==> x in antes || EhFilho(m, final, no, x)
    ensures forall x :: x in depois ==> NoConsistente(m, inicial, final, x)
  {
    forall x | x in depois
      ensures NoConsistente(m, inicial, final, x)
    {
      if x !in antes {
        FilhoConsistente(m, inicial, final, no, x);
      }
    }
  }
}
