# A* route search over a multi-line transit network

This project models the search engine of a route planner. The planner looks
for a minimum-time route between two (station, line) states in a metro-like
network, using A*:

- **Network (`Rede`).** The lines, the stations each line serves, and two
  station-by-station time tables: the real travel time and a straight-line
  estimate. Times are integer hundredths of a minute; the line-transfer
  penalty of 3 minutes is `TempoBaldeacao = 300`. A raw distance table is
  symmetrised from its strict upper triangle: `np.triu(t, 1) + np.triu(t, 1).T`.
  A cell marked `x` is `None` and is absorbed by addition, like NaN.
- **Search node (`Nos`).** `No` holds a state, `g`, `h`, the path of states
  from the start and the predecessor state. The cost is `custo() = g + h`.
  Equality (`Igual`) compares all five fields, and coincides with Dafny's
  `==` on the datatype. `Menor` compares cost only. `ChaveHash` is the flattened key
  `(estado, g, *caminho, estado_pai)` that `__hash__` hashes.
- **Frontier (`Fronteira`).** `sorted(set(fronteira))` is modelled as "the
  distinct elements, sorted non-decreasing by cost", through
  `OrdenaSemRepeticao`.
- **Expansion (`Expansao`).**
  - The cost formulas `CalculaG` and `CalculaH`, and the goal test.
  - The successor relation `Passo`: a neighbour on the current line is
    reached on that line. A neighbour off the current line instead yields
    the current station on every other line that serves it.
  - `AnexaFilhos`, the nested append loops of `__expande_no`. Its contract
    is stated through the child predicate `EhFilho`.
  - The invariant `NoConsistente` that every frontier node keeps. The node's
    path is a walk (`Caminhada`) from the start to its own state, the
    predecessor is the second-to-last path state, `g` is the walk's cost,
    and `h` is the estimate from its state.
- **Engine (`BuscaAEstrela`).** `AEstrela` is in `busca/a_estrela.py`, with
  `Cria` as its validating constructor. The class holds the network, the
  two states and a `fronteira: seq<No>` field. `RetiraNoMenorCusto` pops,
  `ExpandeNo` expands and re-sorts, and `Busca` runs the pop-test-expand
  loop: `Laco` is the loop, `Avanca` one round of it (`Rodada`: expand the
  popped head, pop again), and `Desfecha` reads the outcome off the last
  pop. A ghost record of the frontier before each pop (`fronteiras`, chained
  by `Cadeia`) ties the outcome to the rounds actually run.
- **Legacy engine (`Legado`).** The older copy of `AEstrela` at the
  repository root. It validates nothing, pops with a bare `pop(0)` (an
  IndexError when empty), and raises KeyError when it expands a state whose
  line is missing from the line table and whose station has at least one
  neighbour: the line is only looked up inside the loop over neighbours.

The duplicate `No` class in `nos.py:7-31` is field-for-field the same as
`busca/nos.py`, so both engines share the module `Nos`.

Behaviour of the code that the model keeps:

- The code raises two different errors for a bad state. A line missing from
  the line table is the KeyError of `self.mapa_linhas[linha]`
  (busca/a_estrela.py:74), modelled as `ChaveInexistente`. A station the line
  does not serve is `Exception("Estado inválido")` (busca/a_estrela.py:75),
  modelled as `EstadoInvalido`.
- The symmetrisation keeps the strict upper triangle only. Whatever stands
  on or below the input diagonal is discarded, so the diagonal is always 0
  (`SimetrizaIgnoraTrianguloInferior`).
- The goal test compares station and line. A route reaching the goal
  station on another line does not stop the search.

The loop of `busca` need not terminate, so `Busca` takes a step bound
`combustivel`. It reports `CombustivelEsgotado` when the bound runs out.

## Model

| member | source | states |
|---|---|---|
| Rede.Simetriza | busca/a_estrela.py:108-112 | the processed table is square, symmetric (`t[a][b] == t[b][a]`), has a zero diagonal, and agrees with the input strictly above the diagonal |
| Rede.SimetrizaIgnoraTrianguloInferior | busca/a_estrela.py:108-110 | two inputs that agree strictly above the diagonal give the same processed table: cells on or below the input diagonal are ignored |
| Rede.SimetrizaPreservaAusencia | busca/a_estrela.py:104-110 | an "x" cell strictly above the diagonal stays undefined in both orientations, and a defined one stays defined; cells on or below the diagonal are replaced by their mirror (see `SimetrizaIgnoraTrianguloInferior`) |
| Rede.MontaRede | busca/a_estrela.py:42-48 | the network built from the loaded tables is well formed and holds both tables symmetrised, the line table unchanged |
| Rede.Indice | busca/a_estrela.py:196 | a label lookup (`.loc`) finds the first row carrying that label |
| Rede.Vizinhos | busca/a_estrela.py:149-150 | a station is examined as a neighbour exactly when it is a label whose real time to the current station is defined and nonzero |
| Rede.DiagonalReal | busca/a_estrela.py:108-110 | a station's real time to itself is 0, the term a transfer child's g uses |
| Rede.NaoEhVizinhaDeSi | busca/a_estrela.py:149-150 | the current station is never among its own neighbours |
| Nos.ConstrucaoDoNo | busca/nos.py:31-36 | the constructor keeps state, g, h, path and predecessor unchanged, and the cost is g + h |
| Nos.Igual | busca/nos.py:45-55 | `__eq__` (all five fields) holds exactly when the two nodes are the same value, which is what set de-duplication compares |
| Nos.HistoricoDistingue | busca/nos.py:49-55 | two nodes with the same state and cost but different paths are not equal |
| Nos.MenorEhOrdemEstritaFraca | busca/nos.py:38-43 | `Menor` (`__lt__`, by cost only) is irreflexive, asymmetric and transitive, and two nodes are incomparable exactly when their costs tie |
| Nos.ChaveHashCompativel | busca/nos.py:57-61 | equal nodes have equal hash keys `ChaveHash`, the flattened tuple `__hash__` hashes |
| Nos.ChaveHashDeterminaCampos | busca/nos.py:57-61 | the hash key determines state, g, path and predecessor: only h is left out of it |
| Fronteira.InsereOrdenado | busca/a_estrela.py:187 | inserting into a sorted frontier gives a sorted frontier, one longer, with the same elements plus the new node, and keeps it duplicate-free when the node is new |
| Fronteira.OrdenaSemRepeticao | busca/a_estrela.py:187 | `sorted(set(xs))`: the result is sorted non-decreasing by cost, has no two equal nodes, and holds exactly the elements of xs |
| Fronteira.CaudaOrdenada | busca/a_estrela.py:127-137 | after popping the head of a sorted duplicate-free frontier the rest is still sorted and duplicate-free, and the head costs no more than any node in it |
| Expansao.CalculaG | busca/a_estrela.py:189-203 | a child's g is the parent's g plus one walk step (`CustoPasso`: the real time between the two stations, plus the penalty exactly when the line changes); it is never below the parent's g, and at least one penalty above it on a line change; the legacy copy at nos.py:155-166 is the same formula |
| Expansao.CalculaH | busca/a_estrela.py:205-217 | h is the estimate between the state's station and the goal's, read in either orientation, plus the penalty exactly when the state's line is not the goal's; it is 0 at the goal and at least the penalty off the goal's line; the legacy copy at nos.py:168-177 is the same formula |
| Expansao.PassoTemTempo | busca/a_estrela.py:189-203 | every successor state has a defined real time from the state it leaves, so its g is defined |
| Expansao.PassoCaracterizado | busca/a_estrela.py:152-185 | the successor relation `Passo`, both directions: another station on the current line with a defined nonzero real time, on the current line; or, when some neighbour is off the current line, the current station on each other line serving it |
| Expansao.PassoLevaAEstadoValido | busca/a_estrela.py:152-185 | every successor state is valid: its line exists and serves its station |
| Expansao.AnexaBaldeacoes | busca/a_estrela.py:169-185 | the line loop leaves the old frontier as a prefix and appends exactly the transfer children: the current station on each other line that serves it, except the predecessor state |
| Expansao.AnexaFilhos | busca/a_estrela.py:152-185 | the loops leave the old frontier as a prefix, and what they append is exactly the children: successor states other than the predecessor, with the g, h, path and parent of the formulas |
| Expansao.NoInicial | busca/a_estrela.py:58-66 | the seed node is the start state with g = 0, path [start] and no predecessor, and it is consistent |
| Expansao.PropriedadesDoFilho | busca/a_estrela.py:152-217 | a child (`EhFilho`, built by `Filho`): its path is the parent's plus its state, its predecessor is the parent's state and not the grandparent's, its state is a successor of the parent's and valid, g and h follow the two formulas (g is the parent's g plus one step), a same-line child costs strictly more g, and a transfer child's g rises by exactly the penalty |
| Expansao.CaminhadaEstendida | busca/a_estrela.py:156 | a walk extended by a successor step that is not the predecessor state is still a walk: the one-step-reversal check is what keeps paths free of immediate back-and-forth |
| Expansao.FilhoConsistente | busca/a_estrela.py:152-203 | a child of a consistent node is consistent: its path is a walk from the start and its g is the walk's cost |
| Expansao.EstadoAlcancadoValido | busca/a_estrela.py:50-56 | with a valid start, every state on the frontier is valid |
| Expansao.LinhaDesconhecidaSoNoInicio | nos.py:120-121 | the only frontier node whose line can be missing from the line table is the start node |
| Expansao.SolucaoDoNo | busca/a_estrela.py:219-238 | a consistent node that passes the goal test `VerificaObjetivo` (station and line both equal the goal's) is a route from the start to the goal, and its cost (g + h) is exactly the real cost of that walk |
| Expansao.ExpansaoConsistente | busca/a_estrela.py:139-187 | merging children into a consistent frontier keeps every node consistent |
| BuscaAEstrela.ValidaEstado | busca/a_estrela.py:68-77 | accepts exactly the valid states; a missing line is a KeyError, a station not on the line is "Estado inválido" |
| BuscaAEstrela.Cria | busca/a_estrela.py:27-66 | construction fails exactly when the start or the goal is invalid, with the start's error first; otherwise the frontier is the single seed node |
| BuscaAEstrela.AEstrela.constructor | busca/a_estrela.py:58-66 | the frontier is exactly the seed node |
| BuscaAEstrela.AEstrela.RetiraNoMenorCusto | busca/a_estrela.py:127-137 | an empty frontier raises "Fronteira vazia." and is unchanged; otherwise the head is removed and returned, is a cheapest node, and is consistent |
| BuscaAEstrela.AEstrela.ExpandeNo | busca/a_estrela.py:139-187 | the new frontier holds exactly the old nodes and the children, sorted by cost, without repetition, and stays consistent |
| BuscaAEstrela.AEstrela.Avanca | busca/a_estrela.py:233-236 | one round of the loop: the popped head of `u` is not the goal; expanding it and popping again gives a frontier `depois` that holds exactly the rest of `u` and the head's children, sorted and distinct, and the new pop is read off `depois` |
| BuscaAEstrela.AEstrela.Laco | busca/a_estrela.py:231-236 | the recorded frontiers start at the initial one and are linked by rounds, at most one per unit of the bound; the loop stops only on an empty frontier, a goal head or an exhausted bound |
| BuscaAEstrela.AEstrela.Desfecha | busca/a_estrela.py:233-238 | after the loop, "Fronteira vazia." exactly when the last frontier is empty, a route exactly when its head is the goal, and that route is the head's path and cost: a walk from the start to the goal no dearer than any node left on the frontier |
| BuscaAEstrela.AEstrela.Busca | busca/a_estrela.py:225-238 | the frontiers before each pop, starting at the initial one, are linked by rounds (pop a non-goal head, merge in its children); the outcome is read off the last one: "Fronteira vazia." exactly when it is empty, a route only from a goal head, which is a walk from the start to the goal (station and line) whose cost is the walk's cost and no more than any node left on the frontier; running out of the bound means the bound's number of rounds were run |
| Legado.Cria | nos.py:38-68 | no validation: construction fails (KeyError) exactly when the start or goal station is not a table label |
| Legado.AEstrela.constructor | nos.py:59-68 | the frontier is exactly the seed node |
| Legado.AEstrela.RetiraNoMenorCusto | nos.py:105-108 | an empty frontier raises IndexError; otherwise the head is removed and returned and is a cheapest node |
| Legado.AEstrela.ExpandeNo | nos.py:110-153 | KeyError exactly when the node's line is missing from the line table and the station has a neighbour, leaving the frontier untouched; otherwise the frontier holds exactly the old nodes and the children, sorted, without repetition |
| Legado.AEstrela.Avanca | nos.py:187-190 | one round of the loop: the popped non-goal head of `u` either raises KeyError (unknown line, a neighbour) with the frontier left as the rest of `u`, or expands into a frontier holding exactly the rest of `u` and the head's children, sorted and distinct, from which the next pop is read |
| Legado.AEstrela.Laco | nos.py:185-190 | the recorded frontiers start at the initial one and are linked by rounds, one per unit of the bound spent, except a round cut short by KeyError; the loop stops only on an error, a goal head or an exhausted bound |
| Legado.AEstrela.Desfecha | nos.py:187-192 | after the loop, IndexError exactly when the last frontier is empty, KeyError exactly when expanding its head raised, a route exactly when the head is the goal, as that head's path and cost |
| Legado.AEstrela.Busca | nos.py:182-192 | the frontiers before each pop are linked by rounds as in the validated engine; the outcome is read off the last one: IndexError exactly when it is empty, KeyError only when its head is a non-goal node on a line the table lacks with a neighbour (which can only be the start), a route only from a goal head, a walk from the start to the goal of the walk's cost and no dearer than any node left; running out of the bound means the bound's number of rounds were run |

## Left out

- CSV loading, DataFrame plumbing and lowercasing of labels: the network is taken as already-normalised data.
- The float unit conversion `round(dist * 60 / velocidade, 2)`: times arrive as integer hundredths of a minute, so every `round(., 2)` is the identity.
- All `print` calls and `__imprime_fronteira`: they have no effect on the search.
- `main.py`: console input and result printing only.
- Python hash values and set iteration order: the model fixes one order for cost ties. The contracts of the engines promise only sorted, duplicate-free and the same element set, which holds for any tie order.
- BuscaAEstrela.AEstrela.Busca: termination and optimality are not proved. Only one-step reversal is pruned, so on a cyclic network with an unreachable goal the loop need not end; the step bound `combustivel` stands in for unbounded looping. The ghost record `fronteiras` exists only in the model; the code keeps no history of its frontiers. Minimality of the route depends on the estimate being admissible, which the code never checks.
- Legado.AEstrela.Busca: the same step bound, for the same reason.
- Rede.MontaRede: malformed tables are not modelled. The model requires square tables, distinct labels, columns carrying the labels in the same order as the rows, and lines that serve only labelled stations. In the source, a non-square table makes `upper_tri + upper_tri.T` raise a numpy ValueError. Repeated labels make `.loc` return a Series instead of a number. Columns in another order than the rows make `np.triu` cut the table by position, not by label. A line serving an unlabelled station runs normally, unless that station is the start or the goal, where `__calcula_h` raises KeyError.
- Rede.MontaRede: an estimate table with "x" cells is not modelled. The source would compute NaN estimates; the model requires a complete estimate table.
