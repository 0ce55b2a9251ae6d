/**
 * The transit network the search runs over: which stations each line serves,
 * and the two station-by-station time tables (real travel time and the
 * straight-line estimate), in hundredths of a minute.
 */
module Rede {
  import opened Wrappers

  type Estacao = string
  type Linha = string

  /** A search state: a station and the line the traveller is on there. */
  datatype Estado = Estado(estacao: Estacao, linha: Linha)

  /** A square time table; row and column k belong to station k. None is a cell marked "x". */
  type Tabela = seq<seq<Option<nat>>>

  /** The exceptions the engine can raise. */
  datatype Erro =
    | EstadoInvalido        // "Estado inválido": the station is not on the stated line
    | ChaveInexistente      // KeyError: a line or station label missing from a table
    | FronteiraVazia        // "Fronteira vazia.": pop on an empty frontier
    | IndiceForaDosLimites  // IndexError: list.pop(0) on an empty list

  /** The penalty for changing line inside a station: 3 minutes, in hundredths of a minute. */
  const TempoBaldeacao: nat := 300

  /** The processed network: line table columns, line membership, and the two time tables. */
  datatype Mapas = Mapas(
    linhas: seq<Linha>,
    serve: map<Linha, set<Estacao>>,
    estacoes: seq<Estacao>,
    tempoReal: Tabela,
    tempoEstimativa: Tabela)

  ghost predicate Distintas(s: seq<Estacao>)
  {
    forall i, j :: 0 <= i < j < |s| ==> s[i] != s[j]
  }

  ghost predicate Quadrada(t: Tabela, n: nat)
  {
    |t| == n && forall i :: 0 <= i < n ==> |t[i]| == n
  }

  /** t[a][b] == t[b][a] everywhere, with a zero diagonal. */
  ghost predicate SimetricaDiagonalNula(t: Tabela)
    requires Quadrada(t, |t|)
  {
    && (forall i, j :: 0 <= i < |t| && 0 <= j < |t| ==> t[i][j] == t[j][i])
    && (forall i :: 0 <= i < |t| ==> t[i][i] == Some(0))
  }

  // ---------------------------------------------------------------------------
  // Symmetrisation of a distance table: np.triu(m, 1) + np.triu(m, 1).T
  // ---------------------------------------------------------------------------

  /** Floating-point addition on cells: a missing cell (NaN) absorbs. */
  function SomaCelulas(a: Option<nat>, b: Option<nat>): Option<nat>
  {
    if a.Some? && b.Some? then Some(a.value + b.value) else None
  }

  /** np.triu(t, 1): keeps the cells strictly above the diagonal, zeroes the rest. */
  function TrianguloSuperior(t: Tabela, n: nat): (u: Tabela)
    requires Quadrada(t, n)
    ensures Quadrada(u, n)
  {
    seq(n, i requires 0 <= i < n => seq(n, j requires 0 <= j < n => if i < j then t[i][j] else Some(0)))
  }

  function Transposta(t: Tabela, n: nat): (u: Tabela)
    requires Quadrada(t, n)
    ensures Quadrada(u, n)
  {
    seq(n, i requires 0 <= i < n => seq(n, j requires 0 <= j < n => t[j][i]))
  }

  function SomaTabelas(a: Tabela, b: Tabela, n: nat): (u: Tabela)
    requires Quadrada(a, n) && Quadrada(b, n)
    ensures Quadrada(u, n)
  {
    seq(n, i requires 0 <= i < n => seq(n, j requires 0 <= j < n => SomaCelulas(a[i][j], b[i][j])))
  }

  /** The table as the engine uses it: symmetric, zero diagonal, taken from the upper triangle. */
  function Simetriza(t: Tabela): (r: Tabela)
    requires Quadrada(t, |t|)
    ensures Quadrada(r, |t|)
    ensures SimetricaDiagonalNula(r)
    ensures forall i, j :: 0 <= i < j < |t| ==> r[i][j] == t[i][j]
  {
    var u := TrianguloSuperior(t, |t|);
    SomaTabelas(u, Transposta(u, |t|), |t|)
  }

  /** Whatever stands on or below the input diagonal has no effect on the result. */
  lemma SimetrizaIgnoraTrianguloInferior(t: Tabela, t': Tabela)
    requires Quadrada(t, |t|) && Quadrada(t', |t|)
    requires forall i, j :: 0 <= i < j < |t| ==> t[i][j] == t'[i][j]
    ensures Simetriza(t) == Simetriza(t')
  {
    var r, r' := Simetriza(t), Simetriza(t');
    forall i | 0 <= i < |t|
      ensures r[i] == r'[i]
    {
      forall j | 0 <= j < |t|
        ensures r[i][j] == r'[i][j]
      {
        if j < i {
          assert r[i][j] == r[j][i] && r'[i][j] == r'[j][i];
        }
      }
    }
  }

  /**
   * An "x" cell strictly above the diagonal stays missing in both orientations,
   * and a defined one stays defined. Cells on or below the diagonal are replaced
   * by their mirror (see SimetrizaIgnoraTrianguloInferior).
   */
  lemma SimetrizaPreservaAusencia(t: Tabela, i: nat, j: nat)
    requires Quadrada(t, |t|)
    requires i < j < |t|
    ensures Simetriza(t)[i][j].None? <==> t[i][j].None?
    ensures Simetriza(t)[j][i].None? <==> t[i][j].None?
  {
  }

  // ---------------------------------------------------------------------------
  // The network and its lookups
  // ---------------------------------------------------------------------------

  /** What the loaders deliver: labels once each, square tables, a complete estimate above the diagonal. */
  ghost predicate DadosBemFormados(
    linhas: seq<Linha>, serve: map<Linha, set<Estacao>>, estacoes: seq<Estacao>,
    realBruto: Tabela, estimativaBruta: Tabela)
  {
    && Distintas(estacoes)
    && Quadrada(realBruto, |estacoes|)
    && Quadrada(estimativaBruta, |estacoes|)
    && (forall i, j :: 0 <= i < j < |estacoes| ==> estimativaBruta[i][j].Some?)
    && (forall l :: l in linhas <==> l in serve)
    && (forall l, e :: l in serve && e in serve[l] ==> e in estacoes)
  }

  ghost predicate RedeBemFormada(m: Mapas)
  {
    && Distintas(m.estacoes)
    && Quadrada(m.tempoReal, |m.estacoes|)
    && Quadrada(m.tempoEstimativa, |m.estacoes|)
    && SimetricaDiagonalNula(m.tempoReal)
    && SimetricaDiagonalNula(m.tempoEstimativa)
    && (forall i, j :: 0 <= i < |m.estacoes| && 0 <= j < |m.estacoes| ==> m.tempoEstimativa[i][j].Some?)
    && (forall l :: l in m.linhas <==> l in m.serve)
    && (forall l, e :: l in m.serve && e in m.serve[l] ==> e in m.estacoes)
  }

  /** Building the network: both distance tables are symmetrised before use. */
  function MontaRede(
    linhas: seq<Linha>, serve: map<Linha, set<Estacao>>, estacoes: seq<Estacao>,
    realBruto: Tabela, estimativaBruta: Tabela): (m: Mapas)
    requires DadosBemFormados(linhas, serve, estacoes, realBruto, estimativaBruta)
    ensures RedeBemFormada(m)
    ensures m.linhas == linhas && m.serve == serve && m.estacoes == estacoes
    ensures m.tempoReal == Simetriza(realBruto) && m.tempoEstimativa == Simetriza(estimativaBruta)
  {
    var m := Mapas(linhas, serve, estacoes, Simetriza(realBruto), Simetriza(estimativaBruta));
    assert forall i, j :: 0 <= i < |estacoes| && 0 <= j < |estacoes| ==> m.tempoEstimativa[i][j].Some? by {
      forall i, j | 0 <= i < |estacoes| && 0 <= j < |estacoes|
        ensures m.tempoEstimativa[i][j].Some?
      {
        if j < i {
          assert m.tempoEstimativa[i][j] == m.tempoEstimativa[j][i];
        }
      }
    }
    m
  }

  /** The position of a label in the row (and column) order of the tables. */
  function Indice(s: seq<Estacao>, x: Estacao): (k: nat)
    requires x in s
    ensures k < |s| && s[k] == x
    ensures forall i :: 0 <= i < k ==> s[i] != x
  {
    if s[0] == x then 0 else 1 + Indice(s[1..], x)
  }

  /** mapa_tempo_real.loc[a, b] */
  function TempoReal(m: Mapas, a: Estacao, b: Estacao): Option<nat>
    requires RedeBemFormada(m) && a in m.estacoes && b in m.estacoes
  {
    m.tempoReal[Indice(m.estacoes, a)][Indice(m.estacoes, b)]
  }

  /** mapa_tempo_estimativa.loc[a, b]; the estimate table has no missing cell. */
  function TempoEstimativa(m: Mapas, a: Estacao, b: Estacao): nat
    requires RedeBemFormada(m) && a in m.estacoes && b in m.estacoes
  {
    m.tempoEstimativa[Indice(m.estacoes, a)][Indice(m.estacoes, b)].value
  }

  /** A defined, nonzero cell: what survives dropna() and != 0. */
  predicate Ligacao(c: Option<nat>)
  {
    c.Some? && c.value != 0
  }

  /** The stations from row k on whose cell in column j survives the filter, in row order. */
  function FiltraColuna(m: Mapas, j: nat, k: nat): (r: seq<Estacao>)
    requires RedeBemFormada(m) && j < |m.estacoes| && k <= |m.estacoes|
    ensures forall v :: v in r <==> exists i :: k <= i < |m.estacoes| && m.estacoes[i] == v && Ligacao(m.tempoReal[i][j])
    decreases |m.estacoes| - k
  {
    if k == |m.estacoes| then []
    else
      var resto := FiltraColuna(m, j, k + 1);
      if Ligacao(m.tempoReal[k][j]) then [m.estacoes[k]] + resto else resto
  }

  /** mapa_tempo_real[s].dropna() filtered by != 0: the stations directly reachable from s. */
  function Vizinhos(m: Mapas, s: Estacao): (r: seq<Estacao>)
    requires RedeBemFormada(m) && s in m.estacoes
    ensures forall v :: v in r <==> v in m.estacoes && Ligacao(TempoReal(m, v, s))
  {
    var r := FiltraColuna(m, Indice(m.estacoes, s), 0);
    forall v
      ensures v in r <==> v in m.estacoes && Ligacao(TempoReal(m, v, s))
    {
      if v in m.estacoes {
        var i := Indice(m.estacoes, v);
        if v in r {
          var i' :| 0 <= i' < |m.estacoes| && m.estacoes[i'] == v && Ligacao(m.tempoReal[i'][Indice(m.estacoes, s)]);
          assert i' == i;
        }
      }
    }
    r
  }

  /** A station is zero real time away from itself. */
  lemma DiagonalReal(m: Mapas, s: Estacao)
    requires RedeBemFormada(m) && s in m.estacoes
    ensures TempoReal(m, s, s) == Some(0)
  {
    var k := Indice(m.estacoes, s);
    assert m.tempoReal[k][k] == Some(0);
  }

  /** The zero diagonal keeps a station out of its own neighbours. */
  lemma NaoEhVizinhaDeSi(m: Mapas, s: Estacao)
    requires RedeBemFormada(m) && s in m.estacoes
    ensures s !in Vizinhos(m, s)
  {
    assert TempoReal(m, s, s) == Some(0);
  }

  /** A meaningful state: the line exists in the line table and serves the station. */
  ghost predicate EstadoValido(m: Mapas, e: Estado)
  {
    e.linha in m.serve && e.estacao in m.serve[e.linha]
  }
}
