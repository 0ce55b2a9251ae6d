/** The frontier discipline: `sorted(set(fronteira))`. */
module Fronteira {
  import opened Nos

  /** Non-decreasing by cost: no later node is __lt__ an earlier one. */
  ghost predicate Ordenada(s: seq<No>)
  {
    forall i, j :: 0 <= i < j < |s| ==> !Menor(s[j], s[i])
  }

  /** No two positions hold nodes that are __eq__. */
  ghost predicate SemRepeticao(s: seq<No>)
  {
    forall i, j :: 0 <= i < j < |s| ==> !Igual(s[i], s[j])
  }

  /** A node no dearer than every node of a sorted sequence can go in front of it. */
  lemma AntepoeOrdenado(a: No, s: seq<No>)
    requires Ordenada(s) && forall y :: y in s ==> a.custo() <= y.custo()
    ensures Ordenada([a] + s)
  {
    var r := [a] + s;
    forall i, j | 0 <= i < j < |r|
      ensures !Menor(r[j], r[i])
    {
      if i == 0 {
        assert r[j] == s[j - 1];
      } else {
        assert r[i] == s[i - 1] && r[j] == s[j - 1];
      }
    }
  }

  /** A node absent from a duplicate-free sequence can go in front of it. */
  lemma AntepoeSemRepeticao(a: No, s: seq<No>)
    ensures SemRepeticao(s) && a !in s ==> SemRepeticao([a] + s)
  {
    var r := [a] + s;
    forall i, j | 0 <= i < j < |r| && SemRepeticao(s) && a !in s
      ensures !Igual(r[i], r[j])
    {
      if i == 0 {
        assert r[j] == s[j - 1];
      } else {
        assert r[i] == s[i - 1] && r[j] == s[j - 1];
      }
    }
  }

  /** The head of a sorted sequence is no dearer than the rest; in a duplicate-free one it does not recur. */
  lemma Cabeca(s: seq<No>)
    requires |s| > 0 && Ordenada(s)
    ensures forall y :: y in s[1..] ==> s[0].custo() <= y.custo()
    ensures SemRepeticao(s) ==> s[0] !in s[1..]
  {
    forall y | y in s[1..]
      ensures s[0].custo() <= y.custo()
      ensures SemRepeticao(s) ==> y != s[0]
    {
      var k :| 0 <= k < |s[1..]| && s[1..][k] == y;
      assert s[k + 1] == y;
    }
  }

  /** Puts x before the first node that costs at least as much, so ahead of any cost ties. */
  function InsereOrdenado(x: No, s: seq<No>): (r: seq<No>)
    requires Ordenada(s)
    ensures Ordenada(r)
    ensures |r| == |s| + 1
    ensures forall y :: y in r <==> y == x || y in s
    ensures x !in s && SemRepeticao(s) ==> SemRepeticao(r)
  {
    if s == [] || x.custo() <= s[0].custo() then
      assert forall y :: y in s ==> x.custo() <= y.custo() by {
        if s != [] {
          Cabeca(s);
        }
      }
      AntepoeOrdenado(x, s);
      AntepoeSemRepeticao(x, s);
      [x] + s
    else
      var cauda := s[1..];
      assert s == [s[0]] + cauda;
      var resto := InsereOrdenado(x, cauda);
      Cabeca(s);
      AntepoeOrdenado(s[0], resto);
      AntepoeSemRepeticao(s[0], resto);
      [s[0]] + resto
  }

  /** The distinct elements of xs, sorted by cost (the order of cost ties is this model's choice). */
  function OrdenaSemRepeticao(xs: seq<No>): (r: seq<No>)
    ensures Ordenada(r) && SemRepeticao(r)
    ensures forall y :: y in r <==> y in xs
    ensures |r| <= |xs|
  {
    if xs == [] then []
    else
      var resto := OrdenaSemRepeticao(xs[1..]);
      assert forall y :: y in xs[1..] ==> y in xs;
      assert forall y :: y in xs ==> y == xs[0] || y in xs[1..];
      if xs[0] in resto then resto else InsereOrdenado(xs[0], resto)
  }

  /** Popping the head keeps the frontier sorted and duplicate-free, and the head is a cheapest node. */
  lemma CaudaOrdenada(s: seq<No>)
    requires |s| > 0 && Ordenada(s) && SemRepeticao(s)
    ensures Ordenada(s[1..]) && SemRepeticao(s[1..])
    ensures forall y :: y in s ==> s[0].custo() <= y.custo()
  {
    forall y | y in s
      ensures s[0].custo() <= y.custo()
    {
      var k :| 0 <= k < |s| && s[k] == y;
      if k > 0 {
        assert !Menor(s[k], s[0]);
      }
    }
  }
}
