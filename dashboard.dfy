/**
 * The dashboard's statistics (`estadisticas`), the category ranking
 * (`categoriasOrdenadas`) and the derived figures it displays.
 */
module Dashboard {
  import opened Wrappers
  import opened Dates
  import opened Gastos
  import opened Categorias

  /** The memoised statistics record. */
  datatype Estadisticas = Estadisticas(
    totalGastos: real,
    promedioGasto: real,
    gastoMayor: real,
    gastoMenor: real,
    totalMesActual: real,
    gastosPorCategoria: seq<Entrada>,
    gastosMesActual: nat)

  /** `Math.max(...valores)`: one of the values, and no value exceeds it. */
  function Maximo(vs: seq<real>): (m: real)
    requires vs != []
    ensures m in vs
    ensures forall i :: 0 <= i < |vs| ==> vs[i] <= m
  {
    if |vs| == 1 then vs[0]
    else
      var m := Maximo(vs[1..]);
      if vs[0] > m then vs[0] else m
  }

  /** `Math.min(...valores)`: one of the values, and no value is below it. */
  function Minimo(vs: seq<real>): (m: real)
    requires vs != []
    ensures m in vs
    ensures forall i :: 0 <= i < |vs| ==> m <= vs[i]
  {
    if |vs| == 1 then vs[0]
    else
      var m := Minimo(vs[1..]);
      if vs[0] < m then vs[0] else m
  }

  /** A sum of `n` values between `lo` and `hi` lies between `n * lo` and `n * hi`. */
  lemma {:induction false} SumaAcotada(vs: seq<real>, lo: real, hi: real)
    requires forall i :: 0 <= i < |vs| ==> lo <= vs[i] <= hi
    ensures (|vs| as real) * lo <= Sum(vs) <= (|vs| as real) * hi
  {
    if vs != [] {
      SumaAcotada(vs[..|vs| - 1], lo, hi);
    }
  }

  /** A quotient by `n > 0` of a number between `n * lo` and `n * hi` lies between `lo` and `hi`. */
  lemma CocienteAcotado(s: real, n: real, lo: real, hi: real)
    requires n > 0.0 && n * lo <= s <= n * hi
    ensures lo <= s / n <= hi
  {
    var p := s / n;
    assert p * n == s;
    assert (p - lo) * n == s - n * lo;
    assert (hi - p) * n == n * hi - s;
  }

  /** An average of values between `lo` and `hi` lies between `lo` and `hi`. */
  lemma PromedioAcotado(vs: seq<real>, lo: real, hi: real)
    requires vs != []
    requires forall i :: 0 <= i < |vs| ==> lo <= vs[i] <= hi
    ensures lo <= Sum(vs) / (|vs| as real) <= hi
  {
    SumaAcotada(vs, lo, hi);
    CocienteAcotado(Sum(vs), |vs| as real, lo, hi);
  }

  /** `totalGastos / gastos.length`: the value that, counted once per record, gives the total. */
  function Promedio(vs: seq<real>): (p: real)
    requires vs != []
    ensures p * (|vs| as real) == Sum(vs)
  {
    Sum(vs) / (|vs| as real)
  }

  /** The average lies between the smallest and the largest value. */
  lemma PromedioEntreExtremos(vs: seq<real>)
    requires vs != []
    ensures Minimo(vs) <= Promedio(vs) <= Maximo(vs)
  {
    PromedioAcotado(vs, Minimo(vs), Maximo(vs));
  }

  /** `new Date(year, month, 1)`: the first day of the current month, the earliest date in it. */
  function InicioMes(hoy: Date): (d: Date)
    ensures d.year == hoy.year && d.month == hoy.month
    ensures 1 <= hoy.month <= 12 ==> ValidDate(d)
    ensures forall e :: ValidDate(e) && e.year == hoy.year && e.month == hoy.month ==> DateLeq(d, e)
  {
    Date(hoy.year, hoy.month, 1)
  }

  /** `new Date(year, month + 1, 0)`: the last day of the current month, the latest date in it. */
  function FinMes(hoy: Date): (d: Date)
    requires 1 <= hoy.month <= 12
    ensures d.year == hoy.year && d.month == hoy.month && ValidDate(d)
    ensures forall e :: ValidDate(e) && e.year == hoy.year && e.month == hoy.month ==> DateLeq(e, d)
  {
    Date(hoy.year, hoy.month, DaysInMonth(hoy.year, hoy.month))
  }

  /**
   * The month filter `fechaGasto >= inicioMes && fechaGasto <= finMes`. An
   * unreadable `fecha` is an Invalid Date, which compares false. The window
   * holds exactly the dates of today's calendar month.
   */
  function EnMesActual(g: Gasto, hoy: Date): (r: bool)
    requires ValidDate(hoy)
    ensures r <==> ParseFullDate(g.fecha).Some?
                   && ParseFullDate(g.fecha).value.year == hoy.year
                   && ParseFullDate(g.fecha).value.month == hoy.month
  {
    match ParseFullDate(g.fecha)
    case None => false
    case Some(d) => DateLeq(InicioMes(hoy), d) && DateLeq(d, FinMes(hoy))
  }

  /** `gastos.filter(...)`: the records of the current month, in list order. */
  function GastosMesActual(gs: seq<Gasto>, hoy: Date): (r: seq<Gasto>)
    requires ValidDate(hoy)
    ensures |r| <= |gs|
    ensures forall g :: g in r <==> g in gs && EnMesActual(g, hoy)
    ensures |gs| == 1 ==> r == (if EnMesActual(gs[0], hoy) then gs else [])
  {
    if gs == [] then []
    else
      var rest := GastosMesActual(gs[1..], hoy);
      assert forall g :: g in gs <==> g == gs[0] || g in gs[1..];
      if EnMesActual(gs[0], hoy) then [gs[0]] + rest else rest
  }

  /**
   * The filter works record by record: filtering a concatenation is
   * concatenating the filtered parts. With the single-record case above this
   * fixes the result, each matching record kept once and in list order.
   */
  lemma {:induction false} GastosMesActualConcat(a: seq<Gasto>, b: seq<Gasto>, hoy: Date)
    requires ValidDate(hoy)
    ensures GastosMesActual(a + b, hoy) == GastosMesActual(a, hoy) + GastosMesActual(b, hoy)
  {
    if a == [] {
      assert a + b == b;
    } else {
      assert (a + b)[1..] == a[1..] + b;
      GastosMesActualConcat(a[1..], b, hoy);
    }
  }

  /** With no negative amounts, the month's total never exceeds the overall total. */
  lemma {:induction false} TotalMesAcotado(gs: seq<Gasto>, hoy: Date)
    requires ValidDate(hoy)
    requires forall i :: 0 <= i < |gs| ==> gs[i].valor >= 0.0
    ensures 0.0 <= Total(GastosMesActual(gs, hoy)) <= Total(gs)
  {
    if gs != [] {
      var rest := gs[1..];
      TotalMesAcotado(rest, hoy);
      assert gs == [gs[0]] + rest;
      TotalAppend([gs[0]], rest);
      TotalAppend([gs[0]], GastosMesActual(rest, hoy));
      assert Total([gs[0]]) == gs[0].valor by {
        assert Valores([gs[0]]) == [gs[0].valor];
        assert Sum([gs[0].valor]) == Sum([]) + gs[0].valor;
      }
    }
  }

  /** The smallest and the largest amount bound the amount of every record. */
  lemma ExtremosAcotan(gastos: seq<Gasto>)
    requires gastos != []
    ensures forall g :: g in gastos ==> Minimo(Valores(gastos)) <= g.valor <= Maximo(Valores(gastos))
  {
    var valores := Valores(gastos);
    forall g | g in gastos
      ensures Minimo(valores) <= g.valor <= Maximo(valores)
    {
      var i :| 0 <= i < |gastos| && gastos[i] == g;
      assert valores[i] == g.valor;
    }
  }

  /**
   * The `useMemo` computation: all zeros for an empty list; otherwise the
   * total, the average, the extremes, the current month's total and count,
   * and the per-category totals.
   */
  method CalcularEstadisticas(gastos: seq<Gasto>, hoy: Date) returns (e: Estadisticas)
    requires ValidDate(hoy)
    ensures gastos == [] ==> e == Estadisticas(0.0, 0.0, 0.0, 0.0, 0.0, [], 0)
    ensures e.totalGastos == Total(gastos)
    ensures gastos != [] ==> e.promedioGasto == Promedio(Valores(gastos))
    ensures gastos != [] ==> e.gastoMayor in Valores(gastos) && e.gastoMenor in Valores(gastos)
    ensures forall g :: g in gastos ==> e.gastoMenor <= g.valor <= e.gastoMayor
    ensures e.gastoMenor <= e.promedioGasto <= e.gastoMayor
    ensures e.totalMesActual == Total(GastosMesActual(gastos, hoy))
    ensures e.gastosMesActual == |GastosMesActual(gastos, hoy)| <= |gastos|
    ensures e.gastosPorCategoria == PorCategoria(Filas(gastos))
    ensures Sum(Totales(e.gastosPorCategoria)) == e.totalGastos
  {
    if |gastos| == 0 {
      return Estadisticas(0.0, 0.0, 0.0, 0.0, 0.0, [], 0);
    }

    var valores := Valores(gastos);
    var totalGastos := Sum(valores);
    var promedioGasto := Promedio(valores);
    var gastoMayor := Maximo(valores);
    var gastoMenor := Minimo(valores);

    var mes := GastosMesActual(gastos, hoy);
    var totalMesActual := Total(mes);

    var gastosPorCategoria := AcumularPorCategoria(Filas(gastos));

    e := Estadisticas(totalGastos, promedioGasto, gastoMayor, gastoMenor,
                      totalMesActual, gastosPorCategoria, |mes|);
    PromedioEntreExtremos(valores);
    ValoresOfFilas(gastos);
    ExtremosAcotan(gastos);
  }

  /**
   * The daily average `totalMesActual / new Date().getDate()`: the month's total
   * spread over the days elapsed so far, today included.
   */
  function PromedioDiario(totalMesActual: real, hoy: Date): (r: real)
    requires ValidDate(hoy)
    ensures r * (hoy.day as real) == totalMesActual
    ensures totalMesActual >= 0.0 ==> 0.0 <= r <= totalMesActual
  {
    CocientePorDia(totalMesActual, hoy.day as real);
    totalMesActual / (hoy.day as real)
  }

  /** A quotient by at least 1 multiplies back to the dividend and, for a non-negative dividend, does not exceed it. */
  lemma CocientePorDia(t: real, n: real)
    requires n >= 1.0
    ensures (t / n) * n == t
    ensures t >= 0.0 ==> 0.0 <= t / n <= t
  {
    var p := t / n;
    assert p * n == t;
    if t >= 0.0 {
      assert p >= 0.0;
      assert t - p == p * (n - 1.0);
    }
  }

  predicate OrdenDescendente(es: seq<Entrada>) {
    forall i, j :: 0 <= i < j < |es| ==> es[i].total >= es[j].total
  }

  /** An entry whose total bounds every total of a sorted list can go in front of it. */
  lemma DelanteOrdenado(y: Entrada, rest: seq<Entrada>)
    requires OrdenDescendente(rest)
    requires forall e :: e in rest ==> e.total <= y.total
    ensures OrdenDescendente([y] + rest)
  {
    var r := [y] + rest;
    forall i, j | 0 <= i < j < |r|
      ensures r[i].total >= r[j].total
    {
      assert r[j] == rest[j - 1];
      if i > 0 {
        assert r[i] == rest[i - 1];
      }
    }
  }

  /** The entries after the first of a sorted list are sorted. */
  lemma ColaOrdenada(ys: seq<Entrada>)
    requires ys != [] && OrdenDescendente(ys)
    ensures OrdenDescendente(ys[1..])
  {
    var tail := ys[1..];
    forall i, j | 0 <= i < j < |tail| ensures tail[i].total >= tail[j].total {
      assert tail[i] == ys[i + 1] && tail[j] == ys[j + 1];
    }
  }

  /** The head of a sorted list bounds whatever is left after adding a smaller entry to its tail. */
  lemma CotaTrasInsertar(x: Entrada, ys: seq<Entrada>, rest: seq<Entrada>)
    requires ys != [] && OrdenDescendente(ys) && x.total < ys[0].total
    requires multiset(rest) == multiset{x} + multiset(ys[1..])
    ensures forall e :: e in rest ==> e.total <= ys[0].total
  {
    forall e | e in rest
      ensures e.total <= ys[0].total
    {
      assert e in multiset(rest);
      if e != x {
        assert e in multiset(ys[1..]);
        var k :| 0 <= k < |ys[1..]| && ys[1..][k] == e;
        assert ys[k + 1] == e;
      }
    }
  }

  /** Inserts `x` before the first entry whose total does not exceed its own. */
  function Insertar(x: Entrada, ys: seq<Entrada>): (r: seq<Entrada>)
    requires OrdenDescendente(ys)
    ensures OrdenDescendente(r)
    ensures multiset(r) == multiset{x} + multiset(ys)
  {
    if ys == [] then [x]
    else if x.total >= ys[0].total then
      DelanteOrdenado(x, ys);
      [x] + ys
    else
      var y := ys[0];
      var tail := ys[1..];
      assert ys == [y] + tail;
      ColaOrdenada(ys);
      var rest := Insertar(x, tail);
      CotaTrasInsertar(x, ys, rest);
      DelanteOrdenado(y, rest);
      [y] + rest
  }

  /** Inserting an entry adds its total to the sum of the totals. */
  lemma {:induction false} InsertarSuma(x: Entrada, ys: seq<Entrada>)
    requires OrdenDescendente(ys)
    ensures Sum(Totales(Insertar(x, ys))) == x.total + Sum(Totales(ys))
  {
    var r := Insertar(x, ys);
    if ys == [] || x.total >= ys[0].total {
      assert Totales(r) == [x.total] + Totales(ys);
      SumCons(x.total, Totales(ys));
    } else {
      var rest := Insertar(x, ys[1..]);
      InsertarSuma(x, ys[1..]);
      assert Totales(r) == [ys[0].total] + Totales(rest);
      assert Totales(ys) == [ys[0].total] + Totales(ys[1..]);
      SumCons(ys[0].total, Totales(rest));
      SumCons(ys[0].total, Totales(ys[1..]));
    }
  }

  /**
   * `Object.entries(gastosPorCategoria).sort((a, b) => b[1] - a[1])`: a stable
   * sort by descending total.
   */
  function CategoriasOrdenadas(es: seq<Entrada>): (r: seq<Entrada>)
    ensures OrdenDescendente(r)
    ensures multiset(r) == multiset(es)
  {
    if es == [] then []
    else
      assert es == [es[0]] + es[1..];
      Insertar(es[0], CategoriasOrdenadas(es[1..]))
  }

  /** Sorting keeps the sum of the totals. */
  lemma {:induction false} CategoriasOrdenadasSuma(es: seq<Entrada>)
    ensures Sum(Totales(CategoriasOrdenadas(es))) == Sum(Totales(es))
  {
    if es != [] {
      CategoriasOrdenadasSuma(es[1..]);
      InsertarSuma(es[0], CategoriasOrdenadas(es[1..]));
      assert Totales(es) == [es[0].total] + Totales(es[1..]);
      SumCons(es[0].total, Totales(es[1..]));
    }
  }

  /** The entries with total `t`, in order. */
  function ConTotal(es: seq<Entrada>, t: real): seq<Entrada> {
    if es == [] then [] else SiTotal(es[0], t) + ConTotal(es[1..], t)
  }

  function SiTotal(e: Entrada, t: real): seq<Entrada> {
    if e.total == t then [e] else []
  }

  lemma ConTotalCons(e: Entrada, es: seq<Entrada>, t: real)
    ensures ConTotal([e] + es, t) == SiTotal(e, t) + ConTotal(es, t)
  {
    assert ([e] + es)[1..] == es;
  }

  /** Two entries with different totals can trade places without changing what either filter keeps. */
  lemma Intercambio(x: Entrada, y: Entrada, c: seq<Entrada>, t: real)
    requires x.total != y.total
    ensures SiTotal(y, t) + (SiTotal(x, t) + c) == SiTotal(x, t) + (SiTotal(y, t) + c)
  {
    if x.total == t {
      assert SiTotal(y, t) == [];
    } else {
      assert SiTotal(x, t) == [];
    }
  }

  lemma {:induction false} InsertarEstable(x: Entrada, ys: seq<Entrada>, t: real)
    requires OrdenDescendente(ys)
    ensures ConTotal(Insertar(x, ys), t) == ConTotal([x] + ys, t)
  {
    if ys != [] && x.total < ys[0].total {
      var y, tail := ys[0], ys[1..];
      ColaOrdenada(ys);
      var rest := Insertar(x, tail);
      calc {
        ConTotal(Insertar(x, ys), t);
        == { assert Insertar(x, ys) == [y] + rest; ConTotalCons(y, rest, t); }
        SiTotal(y, t) + ConTotal(rest, t);
        == { InsertarEstable(x, tail, t); ConTotalCons(x, tail, t); }
        SiTotal(y, t) + (SiTotal(x, t) + ConTotal(tail, t));
        == { Intercambio(x, y, ConTotal(tail, t), t); }
        SiTotal(x, t) + (SiTotal(y, t) + ConTotal(tail, t));
        == { assert [y] + tail == ys; ConTotalCons(y, tail, t); }
        SiTotal(x, t) + ConTotal(ys, t);
        == { ConTotalCons(x, ys, t); }
        ConTotal([x] + ys, t);
      }
    }
  }

  /** Ties keep their encounter order: for every total, the entries with that total appear in the same order before and after sorting. */
  lemma {:induction false} CategoriasOrdenadasEstable(es: seq<Entrada>, t: real)
    ensures ConTotal(CategoriasOrdenadas(es), t) == ConTotal(es, t)
  {
    if es != [] {
      CategoriasOrdenadasEstable(es[1..], t);
      InsertarEstable(es[0], CategoriasOrdenadas(es[1..]), t);
      ConTotalCons(es[0], CategoriasOrdenadas(es[1..]), t);
    }
  }

  /**
   * A category's share `(total / totalGastos) * 100`; JavaScript yields NaN or
   * Infinity when the overall total is 0.
   */
  function Porcentaje(total: real, totalGastos: real): (r: Option<real>)
    ensures r.None? <==> totalGastos == 0.0
    ensures r.Some? ==> r.value * totalGastos == total * 100.0
  {
    if totalGastos == 0.0 then None else Some((total / totalGastos) * 100.0)
  }

  /**
   * The shares of the listed categories, one per bar. When the overall total is
   * 0 (amounts that cancel out) every bar has no number for its width.
   */
  function Porcentajes(es: seq<Entrada>, totalGastos: real): (ps: seq<Option<real>>)
    ensures |ps| == |es|
    ensures forall i :: 0 <= i < |ps| ==> (ps[i].None? <==> totalGastos == 0.0)
    ensures forall i :: 0 <= i < |ps| && ps[i].Some? ==> ps[i].value * totalGastos == es[i].total * 100.0
  {
    if es == [] then []
    else [Porcentaje(es[0].total, totalGastos)] + Porcentajes(es[1..], totalGastos)
  }

  /** Each listed share is the share of its category. */
  lemma {:induction false} PorcentajesCuotas(es: seq<Entrada>, totalGastos: real)
    ensures forall i :: 0 <= i < |es| ==> Porcentajes(es, totalGastos)[i] == Porcentaje(es[i].total, totalGastos)
  {
    if es != [] {
      PorcentajesCuotas(es[1..], totalGastos);
    }
  }

  /** The widths of bars that all have a number. */
  function Anchos(ps: seq<Option<real>>): (ws: seq<real>)
    requires forall i :: 0 <= i < |ps| ==> ps[i].Some?
    ensures |ws| == |ps|
    ensures forall i :: 0 <= i < |ps| ==> ws[i] == ps[i].value
  {
    if ps == [] then [] else [ps[0].value] + Anchos(ps[1..])
  }

  /** Shares of two parts add up to the share of the whole. */
  lemma SumaDeCuotas(a: real, b: real, totalGastos: real)
    requires totalGastos != 0.0
    ensures (a / totalGastos) * 100.0 + (b / totalGastos) * 100.0 == ((a + b) / totalGastos) * 100.0
  {
  }

  /** The shares add up to the categories' part of the overall total, in percent. */
  lemma {:induction false} PorcentajesSuma(es: seq<Entrada>, totalGastos: real)
    requires totalGastos != 0.0
    ensures Sum(Anchos(Porcentajes(es, totalGastos))) == (Sum(Totales(es)) / totalGastos) * 100.0
  {
    if es != [] {
      var a, rest := es[0].total, es[1..];
      var b := Sum(Totales(rest));
      var ws := Anchos(Porcentajes(rest, totalGastos));
      var pa := (a / totalGastos) * 100.0;
      assert Sum(Anchos(Porcentajes(es, totalGastos))) == pa + Sum(ws) by {
        assert Porcentajes(es, totalGastos) == [Some(pa)] + Porcentajes(rest, totalGastos);
        assert Anchos(Porcentajes(es, totalGastos)) == [pa] + ws;
        SumCons(pa, ws);
      }
      assert Sum(Totales(es)) == a + b by {
        assert Totales(es) == [a] + Totales(rest);
        SumCons(a, Totales(rest));
      }
      PorcentajesSuma(rest, totalGastos);
      SumaDeCuotas(a, b, totalGastos);
    }
  }

  /** The whole is 100 percent of itself. */
  lemma CuotaDelTotal(totalGastos: real)
    requires totalGastos != 0.0
    ensures (totalGastos / totalGastos) * 100.0 == 100.0
  {
  }

  /** The shares of the sorted categories add up to 100 whenever the overall total is not 0. */
  lemma PorcentajesSuman100(gastos: seq<Gasto>)
    requires Total(gastos) != 0.0
    ensures Sum(Anchos(Porcentajes(CategoriasOrdenadas(PorCategoria(Filas(gastos))), Total(gastos)))) == 100.0
  {
    var total := Total(gastos);
    var es := PorCategoria(Filas(gastos));
    var ordenadas := CategoriasOrdenadas(es);
    assert Sum(Totales(ordenadas)) == total by {
      PorCategoriaSuma(Filas(gastos));
      ValoresOfFilas(gastos);
      CategoriasOrdenadasSuma(es);
    }
    PorcentajesSuma(ordenadas, total);
    CuotaDelTotal(total);
  }

  /**
   * `gastos.slice(0, 5)`: the first five records of the list as it stands.
   * Right after a load they are the five most recent; a record created since
   * goes first whatever its date, and an update may change a date in place.
   */
  function Recientes(gastos: seq<Gasto>): (r: seq<Gasto>)
    ensures |r| == if |gastos| < 5 then |gastos| else 5
    ensures forall i :: 0 <= i < |r| ==> r[i] == gastos[i]
  {
    if |gastos| < 5 then gastos else gastos[..5]
  }

  /** The filter keeps the two records of the current month, in order, and drops the third. */
  lemma FiltroEjemplo(g1: Gasto, g2: Gasto, g3: Gasto, hoy: Date)
    requires ValidDate(hoy)
    requires EnMesActual(g1, hoy) && EnMesActual(g2, hoy) && !EnMesActual(g3, hoy)
    ensures GastosMesActual([g1, g2, g3], hoy) == [g1, g2]
  {
    assert [g1, g2, g3] == [g1, g2] + [g3] && [g1, g2] == [g1] + [g2];
    GastosMesActualConcat([g1], [g2], hoy);
    GastosMesActualConcat([g1, g2], [g3], hoy);
  }

  /** Two records of the current month worth 45000 and 60000 and one of another month worth 89000. */
  lemma EjemploMesActual(g1: Gasto, g2: Gasto, g3: Gasto, hoy: Date)
    requires ValidDate(hoy)
    requires EnMesActual(g1, hoy) && EnMesActual(g2, hoy) && !EnMesActual(g3, hoy)
    requires g1.valor == 45000.0 && g2.valor == 60000.0 && g3.valor == 89000.0
    ensures Total([g1, g2, g3]) == 194000.0
    ensures Total(GastosMesActual([g1, g2, g3], hoy)) == 105000.0
    ensures |GastosMesActual([g1, g2, g3], hoy)| == 2
  {
    FiltroEjemplo(g1, g2, g3, hoy);
    assert [g1, g2, g3] == [g1, g2] + [g3] && [g1, g2] == [g1] + [g2];
    TotalAppend([g1], [g2]);
    TotalAppend([g1, g2], [g3]);
  }
}
