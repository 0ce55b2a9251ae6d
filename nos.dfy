/**
 * The A* search node: a state, the accumulated time g, the estimate h, the
 * path of states from the start, and the predecessor state.
 */
module Nos {
  import opened Wrappers
  import opened Rede

  /**
   * g and h are integer hundredths of a minute, so rounding them to two
   * decimals leaves them unchanged. The total cost is derived from them, and
   * Dafny's equality on No compares exactly the five stored fields.
   */
  datatype No = No(estado: Estado, g: nat, h: nat, caminho: seq<Estado>, estadoPai: Option<Estado>)
  {
    /** custo = g + h */
    function custo(): nat
    {
      g + h
    }
  }

  /**
   * __eq__: state, g, h, path and predecessor all match. This is exactly the
   * datatype's equality, so Dafny's sets de-duplicate as Python's set() does.
   */
  predicate Igual(a: No, b: No): (r: bool)
    ensures r <==> a == b
  {
    a.estado == b.estado && a.g == b.g && a.h == b.h && a.caminho == b.caminho && a.estadoPai == b.estadoPai
  }

  /** __lt__: by total cost only. */
  predicate Menor(a: No, b: No)
  {
    a.custo() < b.custo()
  }

  /** One component of the flattened tuple (estado, g, *caminho, estado_pai) that __hash__ hashes. */
  datatype ItemChave = ItemEstado(e: Estado) | ItemNumero(x: nat) | ItemNenhum

  function ItemPai(p: Option<Estado>): ItemChave
  {
    match p
    case None => ItemNenhum
    case Some(e) => ItemEstado(e)
  }

  function ItensCaminho(c: seq<Estado>): (r: seq<ItemChave>)
    ensures |r| == |c| && forall i :: 0 <= i < |c| ==> r[i] == ItemEstado(c[i])
  {
    seq(|c|, i requires 0 <= i < |c| => ItemEstado(c[i]))
  }

  /** __hash__'s key: the state, g, every state of the path, then the predecessor. h is not part of it. */
  function ChaveHash(n: No): seq<ItemChave>
  {
    [ItemEstado(n.estado), ItemNumero(n.g)] + ItensCaminho(n.caminho) + [ItemPai(n.estadoPai)]
  }

  /** The constructor keeps its arguments and the cost is their sum. */
  lemma ConstrucaoDoNo(estado: Estado, g: nat, h: nat, caminho: seq<Estado>, estadoPai: Option<Estado>)
    ensures var n := No(estado, g, h, caminho, estadoPai);
      n.estado == estado && n.g == g && n.h == h && n.caminho == caminho && n.estadoPai == estadoPai
      && n.custo() == g + h
  {
  }

  /** Equality looks at the whole history: same state and cost over two different paths are two nodes. */
  lemma HistoricoDistingue(a: No, b: No)
    requires a.estado == b.estado && a.custo() == b.custo() && a.caminho != b.caminho
    ensures !Igual(a, b)
  {
  }

  /** __lt__ is a strict weak order whose incomparable pairs are exactly the cost ties. */
  lemma MenorEhOrdemEstritaFraca(a: No, b: No, c: No)
    ensures !Menor(a, a)
    ensures Menor(a, b) ==> !Menor(b, a)
    ensures Menor(a, b) && Menor(b, c) ==> Menor(a, c)
    ensures !Menor(a, b) && !Menor(b, a) <==> a.custo() == b.custo()
  {
  }

  /** Equal nodes have equal hash keys: the key reads only fields equality compares. */
  lemma ChaveHashCompativel(a: No, b: No)
    requires Igual(a, b)
    ensures ChaveHash(a) == ChaveHash(b)
  {
  }

  /** The key determines every field equality compares except h. */
  lemma ChaveHashDeterminaCampos(a: No, b: No)
    requires ChaveHash(a) == ChaveHash(b)
    ensures a.estado == b.estado && a.g == b.g && a.caminho == b.caminho && a.estadoPai == b.estadoPai
  {
    var ka, kb := ChaveHash(a), ChaveHash(b);
    assert |a.caminho| == |b.caminho|;
    assert ka[0] == kb[0] && ka[1] == kb[1];
    forall i | 0 <= i < |a.caminho|
      ensures a.caminho[i] == b.caminho[i]
    {
      assert ka[i + 2] == ItemEstado(a.caminho[i]);
      assert kb[i + 2] == ItemEstado(b.caminho[i]);
    }
    assert ka[|ka| - 1] == ItemPai(a.estadoPai);
    assert kb[|kb| - 1] == ItemPai(b.estadoPai);
  }
}
