/**
 * The expense record (`Gasto`) and the sums over expense lists that the
 * dashboard, the header and the list view display.
 */
module Gastos {
  import opened Wrappers
  import opened Dates

  /** A JavaScript number as `parseFloat` returns it: a value, or NaN when no number could be read. */
  datatype Numero = Num(value: real) | NaN

  /**
   * One row of the `gastos` table. `nombre`, `fecha` and `valor` are always
   * present; `id` and `createdAt` are assigned by the backend, `categoria` and
   * `descripcion` may be missing.
   */
  datatype Gasto = Gasto(
    id: Option<int>,
    nombre: string,
    fecha: string,
    valor: real,
    categoria: Option<string>,
    descripcion: Option<string>,
    createdAt: Option<string>)

  /** The columns `valor, categoria` of a row, as `select('valor, categoria')` returns them. */
  datatype Fila = Fila(valor: real, categoria: Option<string>)

  const SinCategoria: string := "Sin categoría"

  /** `categoria || 'Sin categoría'`: a missing or empty category falls back to the "uncategorized" label. */
  function Etiqueta(categoria: Option<string>): (r: string)
    ensures r != ""
    ensures categoria.Some? && categoria.value != "" ==> r == categoria.value
    ensures categoria.None? || categoria.value == "" ==> r == SinCategoria
  {
    if categoria.Some? && categoria.value != "" then categoria.value else SinCategoria
  }

  /** `vs.reduce((sum, v) => sum + v, 0)`: a left fold, so the last value is added last. */
  function Sum(vs: seq<real>): real {
    if vs == [] then 0.0 else Sum(vs[..|vs| - 1]) + vs[|vs| - 1]
  }

  lemma {:induction false} SumAppend(a: seq<real>, b: seq<real>)
    ensures Sum(a + b) == Sum(a) + Sum(b)
  {
    if b == [] {
      assert a + b == a;
    } else {
      assert (a + b)[..|a + b| - 1] == a + b[..|b| - 1];
      SumAppend(a, b[..|b| - 1]);
    }
  }

  lemma {:induction false} SumCons(v: real, vs: seq<real>)
    ensures Sum([v] + vs) == v + Sum(vs)
  {
    SumAppend([v], vs);
    assert Sum([v]) == Sum([]) + v;
  }

  /** `gastos.map(g => g.valor)`. */
  function Valores(gs: seq<Gasto>): (vs: seq<real>)
    ensures |vs| == |gs|
    ensures forall i :: 0 <= i < |gs| ==> vs[i] == gs[i].valor
  {
    if gs == [] then [] else [gs[0].valor] + Valores(gs[1..])
  }

  /** A sum of values none of which is negative is not negative. */
  lemma {:induction false} SumNoNegativa(vs: seq<real>)
    requires forall i :: 0 <= i < |vs| ==> vs[i] >= 0.0
    ensures Sum(vs) >= 0.0
  {
    if vs != [] {
      SumNoNegativa(vs[..|vs| - 1]);
    }
  }

  /**
   * `gastos.reduce((sum, gasto) => sum + gasto.valor, 0)`: the total shown in
   * the header, the list and the dashboard. A single record's total is its
   * amount (with `TotalAppend`, this fixes the total of every list), and with
   * no negative amounts the total is not negative.
   */
  function Total(gs: seq<Gasto>): (t: real)
    ensures |gs| == 1 ==> t == gs[0].valor
    ensures (forall i :: 0 <= i < |gs| ==> gs[i].valor >= 0.0) ==> t >= 0.0
  {
    var vs := Valores(gs);
    assert |gs| == 1 ==> Sum(vs) == gs[0].valor by {
      if |gs| == 1 {
        assert vs[..0] == [];
      }
    }
    assert (forall i :: 0 <= i < |gs| ==> gs[i].valor >= 0.0) ==> Sum(vs) >= 0.0 by {
      if forall i :: 0 <= i < |gs| ==> gs[i].valor >= 0.0 {
        SumNoNegativa(vs);
      }
    }
    Sum(vs)
  }

  /** Totals add up over concatenated lists. */
  lemma TotalAppend(a: seq<Gasto>, b: seq<Gasto>)
    ensures Total(a + b) == Total(a) + Total(b)
  {
    assert Valores(a + b) == Valores(a) + Valores(b);
    SumAppend(Valores(a), Valores(b));
  }

  /** The `valor, categoria` projection of each expense. */
  function Filas(gs: seq<Gasto>): (fs: seq<Fila>)
    ensures |fs| == |gs|
    ensures forall i :: 0 <= i < |gs| ==> fs[i] == Fila(gs[i].valor, gs[i].categoria)
  {
    if gs == [] then [] else [Fila(gs[0].valor, gs[0].categoria)] + Filas(gs[1..])
  }

  /**
   * The amounts of the projected rows, in order: what the summary's
   * `data.reduce((sum, gasto) => sum + gasto.valor, 0)` adds up.
   */
  function ValoresFilas(fs: seq<Fila>): (vs: seq<real>)
    ensures |vs| == |fs|
    ensures forall i :: 0 <= i < |fs| ==> vs[i] == fs[i].valor
  {
    if fs == [] then [] else [fs[0].valor] + ValoresFilas(fs[1..])
  }

  /** Projecting to `valor, categoria` keeps the amounts, hence the total. */
  lemma ValoresOfFilas(gs: seq<Gasto>)
    ensures ValoresFilas(Filas(gs)) == Valores(gs)
    ensures Sum(ValoresFilas(Filas(gs))) == Total(gs)
  {
  }

  /**
   * `fecha` read as a date, comparing newest first. Where an unreadable date
   * goes is a choice of this model (last); the query only asks for `fecha`
   * descending.
   */
  predicate MasReciente(a: Gasto, b: Gasto) {
    match (ParseFullDate(a.fecha), ParseFullDate(b.fecha))
    case (Some(da), Some(db)) => DateLeq(db, da)
    case (Some(_), None) => true
    case (None, Some(_)) => false
    case (None, None) => true
  }

  /** The newest-first comparison is transitive. */
  lemma MasRecienteTransitivo(a: Gasto, b: Gasto, c: Gasto)
    requires MasReciente(a, b) && MasReciente(b, c)
    ensures MasReciente(a, c)
  {
  }

  /** The order `getAll` returns the records in: by `fecha`, newest first. */
  predicate OrdenadosPorFecha(gastos: seq<Gasto>) {
    forall i, j :: 0 <= i < j < |gastos| ==> MasReciente(gastos[i], gastos[j])
  }
}
