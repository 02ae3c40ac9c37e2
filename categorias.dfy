/**
 * The per-category totals that the dashboard (`gastosPorCategoria`) and the
 * monthly summary (`porCategoria`) build with the same reduce:
 *   const cat = row.categoria || 'Sin categoría'
 *   acc[cat] = (acc[cat] || 0) + row.valor
 * The accumulator is a JavaScript object, so its keys are distinct and
 * `Object.entries` lists them in the order they were first inserted; it is
 * modelled as an association list in that order.
 */
module Categorias {
  import opened Gastos

  /** One `[categoria, total]` entry of the accumulator object. */
  datatype Entrada = Entrada(categoria: string, total: real)

  function Claves(acc: seq<Entrada>): (ks: seq<string>)
    ensures |ks| == |acc|
    ensures forall i :: 0 <= i < |acc| ==> ks[i] == acc[i].categoria
  {
    if acc == [] then [] else [acc[0].categoria] + Claves(acc[1..])
  }

  function Totales(acc: seq<Entrada>): (ts: seq<real>)
    ensures |ts| == |acc|
    ensures forall i :: 0 <= i < |acc| ==> ts[i] == acc[i].total
  {
    if acc == [] then [] else [acc[0].total] + Totales(acc[1..])
  }

  predicate SinRepetidas(ks: seq<string>) {
    forall i, j :: 0 <= i < j < |ks| ==> ks[i] != ks[j]
  }

  /** `acc[k] || 0`: the running total of category `k`, or 0 while `k` has no key. */
  function Lookup(acc: seq<Entrada>, k: string): (r: real)
    ensures k !in Claves(acc) ==> r == 0.0
  {
    if acc == [] then 0.0
    else if acc[0].categoria == k then acc[0].total
    else
      assert Claves(acc) == [acc[0].categoria] + Claves(acc[1..]);
      Lookup(acc[1..], k)
  }

  /** The total read for `k` is the one stored under the first key equal to `k`. */
  lemma {:induction false} LookupPrimera(acc: seq<Entrada>, k: string, i: int)
    requires 0 <= i < |acc| && acc[i].categoria == k && k !in Claves(acc)[..i]
    ensures Lookup(acc, k) == acc[i].total
  {
    if i > 0 {
      var ks := Claves(acc);
      assert ks[..i] == [ks[0]] + ks[1..i];
      assert Claves(acc[1..])[..i - 1] == ks[1..i];
      LookupPrimera(acc[1..], k, i - 1);
    }
  }

  /**
   * `acc[cat] = (acc[cat] || 0) + v`: an existing key keeps its place; a new key
   * goes last.
   */
  function Sumar(acc: seq<Entrada>, cat: string, v: real): (r: seq<Entrada>)
    ensures Claves(r) == if cat in Claves(acc) then Claves(acc) else Claves(acc) + [cat]
  {
    if acc == [] then [Entrada(cat, v)]
    else if acc[0].categoria == cat then [Entrada(cat, acc[0].total + v)] + acc[1..]
    else
      var r := [acc[0]] + Sumar(acc[1..], cat, v);
      assert Claves(acc) == [acc[0].categoria] + Claves(acc[1..]);
      r
  }

  /** `Sumar` adds `v` to the total of `cat` and changes no other category's total. */
  lemma {:induction false} SumarLookup(acc: seq<Entrada>, cat: string, v: real, k: string)
    ensures Lookup(Sumar(acc, cat, v), k) == Lookup(acc, k) + (if k == cat then v else 0.0)
  {
    if acc != [] && acc[0].categoria != cat {
      SumarLookup(acc[1..], cat, v, k);
    }
  }

  /** `Sumar` adds `v` to the sum of all totals. */
  lemma {:induction false} SumarSuma(acc: seq<Entrada>, cat: string, v: real)
    ensures Sum(Totales(Sumar(acc, cat, v))) == Sum(Totales(acc)) + v
  {
    var r := Sumar(acc, cat, v);
    if acc == [] {
      SumCons(v, []);
      assert Totales(r) == [v] + [];
    } else {
      var rest := acc[1..];
      assert Totales(acc) == [acc[0].total] + Totales(rest);
      SumCons(acc[0].total, Totales(rest));
      if acc[0].categoria == cat {
        assert Totales(r) == [acc[0].total + v] + Totales(rest);
        SumCons(acc[0].total + v, Totales(rest));
      } else {
        SumarSuma(rest, cat, v);
        assert Totales(r) == [acc[0].total] + Totales(Sumar(rest, cat, v));
        SumCons(acc[0].total, Totales(Sumar(rest, cat, v)));
      }
    }
  }

  /** The label each row is counted under. */
  function Etiquetas(fs: seq<Fila>): (ls: seq<string>)
    ensures |ls| == |fs|
    ensures forall i :: 0 <= i < |fs| ==> ls[i] == Etiqueta(fs[i].categoria)
  {
    seq(|fs|, i requires 0 <= i < |fs| => Etiqueta(fs[i].categoria))
  }

  /** The distinct elements of `ks` in order of first appearance. */
  function Distintas(ks: seq<string>): (ds: seq<string>)
    ensures SinRepetidas(ds)
    ensures forall k :: k in ds <==> k in ks
  {
    if ks == [] then []
    else
      var d := Distintas(ks[..|ks| - 1]);
      assert ks == ks[..|ks| - 1] + [ks[|ks| - 1]];
      if ks[|ks| - 1] in d then d else d + [ks[|ks| - 1]]
  }

  /** Wherever `ks` holds an element of `ds`, every earlier element of `ds` has already occurred in `ks`. */
  predicate OrdenDeAparicion(ks: seq<string>, ds: seq<string>) {
    forall i, j, q :: 0 <= i < j < |ds| && 0 <= q < |ks| && ks[q] == ds[j] ==> ds[i] in ks[..q]
  }

  /**
   * `Distintas` keeps the order of first appearance: wherever `ks` holds a
   * later element of the result, an earlier one has already occurred.
   */
  lemma {:induction false} DistintasOrden(ks: seq<string>)
    ensures OrdenDeAparicion(ks, Distintas(ks))
  {
    if ks != [] {
      var init := ks[..|ks| - 1];
      var x := ks[|ks| - 1];
      var d := Distintas(init);
      var ds := Distintas(ks);
      DistintasOrden(init);
      assert ds == if x in d then d else d + [x];
      forall i, j, q | 0 <= i < j < |ds| && 0 <= q < |ks| && ks[q] == ds[j]
        ensures ds[i] in ks[..q]
      {
        assert ds[i] == d[i];
        if q < |ks| - 1 {
          assert ks[q] == init[q];
          assert ks[..q] == init[..q];
          if j == |d| {
            assert false;
          }
          assert ds[j] == d[j];
        } else {
          assert ks[..q] == init;
          assert d[i] in d;
        }
      }
    }
  }

  /** The sum of the amounts of the rows labelled `k`. */
  function TotalCategoria(fs: seq<Fila>, k: string): real {
    if fs == [] then 0.0
    else TotalCategoria(fs[..|fs| - 1], k)
         + (if Etiqueta(fs[|fs| - 1].categoria) == k then fs[|fs| - 1].valor else 0.0)
  }

  /** The accumulator after the reduce has visited every row, in row order. */
  function PorCategoria(fs: seq<Fila>): (acc: seq<Entrada>)
    ensures SinRepetidas(Claves(acc))
  {
    if fs == [] then []
    else
      var last := fs[|fs| - 1];
      Sumar(PorCategoria(fs[..|fs| - 1]), Etiqueta(last.categoria), last.valor)
  }

  /** The keys are the row labels, each once, in the order they first occur. */
  lemma {:induction false} PorCategoriaClaves(fs: seq<Fila>)
    ensures Claves(PorCategoria(fs)) == Distintas(Etiquetas(fs))
  {
    if fs != [] {
      var init := fs[..|fs| - 1];
      PorCategoriaClaves(init);
      assert Etiquetas(fs)[..|fs| - 1] == Etiquetas(init);
    }
  }

  /** Each category's entry holds exactly the sum of the amounts of the rows counted under it. */
  lemma {:induction false} PorCategoriaLookup(fs: seq<Fila>, k: string)
    ensures Lookup(PorCategoria(fs), k) == TotalCategoria(fs, k)
  {
    if fs != [] {
      var last := fs[|fs| - 1];
      PorCategoriaLookup(fs[..|fs| - 1], k);
      SumarLookup(PorCategoria(fs[..|fs| - 1]), Etiqueta(last.categoria), last.valor, k);
    }
  }

  /** Every amount lands in exactly one category, so the category totals add up to the grand total. */
  lemma {:induction false} PorCategoriaSuma(fs: seq<Fila>)
    ensures Sum(Totales(PorCategoria(fs))) == Sum(ValoresFilas(fs))
  {
    if fs != [] {
      var init := fs[..|fs| - 1];
      var last := fs[|fs| - 1];
      var vs := ValoresFilas(fs);
      assert Sum(vs) == Sum(ValoresFilas(init)) + last.valor by {
        assert vs[..|fs| - 1] == ValoresFilas(init);
      }
      PorCategoriaSuma(init);
      SumarSuma(PorCategoria(init), Etiqueta(last.categoria), last.valor);
    }
  }

  /**
   * The reduce itself: one pass over the rows, updating the accumulator object
   * in place.
   */
  method AcumularPorCategoria(fs: seq<Fila>) returns (acc: seq<Entrada>)
    ensures acc == PorCategoria(fs)
    ensures SinRepetidas(Claves(acc)) && Claves(acc) == Distintas(Etiquetas(fs))
    ensures forall k :: Lookup(acc, k) == TotalCategoria(fs, k)
    ensures Sum(Totales(acc)) == Sum(ValoresFilas(fs))
  {
    acc := [];
    var i := 0;
    while i < |fs|
      invariant 0 <= i <= |fs|
      invariant acc == PorCategoria(fs[..i])
    {
      var cat := Etiqueta(fs[i].categoria);
      acc := Sumar(acc, cat, fs[i].valor);
      assert fs[..i + 1][..i] == fs[..i];
      i := i + 1;
    }
    assert fs[..i] == fs;
    PorCategoriaClaves(fs);
    PorCategoriaSuma(fs);
    forall k
      ensures Lookup(acc, k) == TotalCategoria(fs, k)
    {
      PorCategoriaLookup(fs, k);
    }
  }
}
