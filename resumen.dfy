/**
 * The monthly summary `gastosService.getResumenMes(year, month)`: the two
 * "YYYY-MM-01" bounds of the date window sent to the backend, and the
 * aggregation of the rows it returns into a total, per-category sums and a
 * count.
 */
module Resumen {
  import opened Wrappers
  import opened JsStrings
  import opened Dates
  import opened Gastos
  import opened Categorias

  /** `{ total, porCategoria, cantidad }`. */
  datatype Resumen = Resumen(total: real, porCategoria: seq<Entrada>, cantidad: nat)

  /**
   * `` `${year}-${month.toString().padStart(2, '0')}-01` ``: the first day of a
   * month, as a string. For a four-digit year and a month number below 100 it
   * reads back as the first day of that month when the month is 1..12, and
   * names no date otherwise.
   */
  function PrimeroDeMes(year: int, month: int): (s: string)
    ensures 1000 <= year <= 9999 && 0 <= month <= 99 ==>
              ParseFullDate(s) == if 1 <= month <= 12 then Some(Date(year, month, 1)) else None
  {
    PrimeroDeMesTexto(year, month);
    IntToString(year) + "-" + PadStart(IntToString(month), 2, '0') + "-01"
  }

  /** The inclusive lower bound of the query (`gte('fecha', …)`): the first day of the requested month. */
  function LimiteInferior(year: int, month: int): (s: string)
    ensures 1000 <= year <= 9999 && 1 <= month <= 12 ==> ParseFullDate(s) == Some(Date(year, month, 1))
  {
    PrimeroDeMes(year, month)
  }

  /**
   * The exclusive upper bound of the query (`lt('fecha', …)`), built from
   * `month + 1` with no year rollover: the first day of the next month for
   * January to November, and no date at all for December.
   */
  function LimiteSuperior(year: int, month: int): (s: string)
    ensures 1000 <= year <= 9999 && 1 <= month <= 11 ==> ParseFullDate(s) == Some(Date(year, month + 1, 1))
    ensures 1000 <= year <= 9999 && month == 12 ==> ParseFullDate(s) == None
  {
    PrimeroDeMes(year, month + 1)
  }

  lemma {:induction false} Pow10Monotono(i: nat, j: nat)
    requires i <= j
    ensures Pow10(i) <= Pow10(j)
  {
    if i < j {
      Pow10Monotono(i, j - 1);
    }
  }

  /** A four-digit year is written with exactly four digits. */
  lemma AnioCuatroCifras(y: int)
    requires 1000 <= y <= 9999
    ensures IntToString(y) == NatToString(y) && |IntToString(y)| == 4
  {
    var s := NatToString(y);
    assert Pow10(3) == 1000 && Pow10(4) == 10000;
    NatToStringLength(y, 4);
    if |s| < 4 {
      Pow10Monotono(|s|, 3);
    }
  }

  /** A month number below 100 is zero-filled to two digits that read back as the month. */
  lemma MesDosCifras(m: int)
    requires 0 <= m <= 99
    ensures |PadStart(IntToString(m), 2, '0')| == 2
    ensures AllDigits(PadStart(IntToString(m), 2, '0'))
    ensures DigitsValue(PadStart(IntToString(m), 2, '0')) == m
  {
    var s := NatToString(m);
    assert Pow10(2) == 100;
    NatToStringLength(m, 2);
    LeadingZerosValue(2 - |s|, s);
  }

  /** Where the pieces of a "YYYY-MM-01" string sit. */
  lemma Piezas(ys: string, ms: string)
    requires |ys| == 4 && |ms| == 2
    ensures var s := ys + "-" + ms + "-01";
            && |s| == 10 && s[4] == '-' && s[7] == '-'
            && s[..4] == ys && s[5..7] == ms && s[8..] == "01"
  {
  }

  /** "01" reads as 1. */
  lemma DiaUno()
    ensures AllDigits("01") && DigitsValue("01") == 1
  {
    assert "01"[..1] == "0";
  }

  /** The bound string, written out, for a four-digit year and a month number below 100. */
  lemma PrimeroDeMesTexto(y: int, m: int)
    ensures 1000 <= y <= 9999 && 0 <= m <= 99 ==>
              ParseFullDate(IntToString(y) + "-" + PadStart(IntToString(m), 2, '0') + "-01")
              == if 1 <= m <= 12 then Some(Date(y, m, 1)) else None
  {
    if 1000 <= y <= 9999 && 0 <= m <= 99 {
      AnioCuatroCifras(y);
      MesDosCifras(m);
      Piezas(IntToString(y), PadStart(IntToString(m), 2, '0'));
      DiaUno();
    }
  }

  /**
   * For December the upper bound is "<year>-13-01", which names no date: the
   * month is not carried into the next year.
   */
  lemma LimiteSuperiorDiciembre(y: int)
    requires 1000 <= y <= 9999
    ensures LimiteSuperior(y, 12) == IntToString(y) + "-13-01"
    ensures ParseFullDate(LimiteSuperior(y, 12)) == None
  {
    assert PadStart(IntToString(13), 2, '0') == "13" by {
      assert NatToString(1) == "1";
      assert NatToString(13) == "13";
    }
  }

  /** A valid date lies on or after the first of a month and before the first of the next one exactly when it is in that month. */
  lemma EntreDosPrimeros(d: Date, y: int, m: int)
    requires ValidDate(d) && 1 <= m <= 12
    ensures DateLeq(Date(y, m, 1), d) && !DateLeq(PrimeroDelSiguiente(y, m), d) <==> d.year == y && d.month == m
    ensures m <= 11 ==> PrimeroDelSiguiente(y, m) == Date(y, m + 1, 1)
  {
  }

  /**
   * The window `[LimiteInferior, LimiteSuperior)` holds exactly the dates of the
   * requested month (January to November, where both bounds are dates).
   */
  lemma {:induction false} VentanaDelMes(d: Date, y: int, m: int)
    requires ValidDate(d) && 1000 <= y <= 9999 && 1 <= m <= 11
    ensures ParseFullDate(LimiteInferior(y, m)) == Some(Date(y, m, 1))
    ensures ParseFullDate(LimiteSuperior(y, m)) == Some(Date(y, m + 1, 1))
    ensures DateLeq(Date(y, m, 1), d) && !DateLeq(Date(y, m + 1, 1), d) <==> d.year == y && d.month == m
  {
    EntreDosPrimeros(d, y, m);
  }

  /**
   * The upper bound as evidently intended: the first day of the following
   * month, December rolling over into January of the next year. It agrees
   * with the bound sent for January to November.
   */
  function LimiteSuperiorCorregido(year: int, month: int): (s: string)
    ensures 1000 <= year <= 9998 && 1 <= month <= 12 ==> ParseFullDate(s) == Some(PrimeroDelSiguiente(year, month))
    ensures 1 <= month <= 11 ==> s == LimiteSuperior(year, month)
  {
    if month == 12 then PrimeroDeMes(year + 1, 1) else PrimeroDeMes(year, month + 1)
  }

  /** The first day of the month after `m` of year `y`. */
  function PrimeroDelSiguiente(y: int, m: int): Date {
    if m == 12 then Date(y + 1, 1, 1) else Date(y, m + 1, 1)
  }

  /**
   * With the corrected upper bound, the window holds exactly the dates of the
   * requested month for every month, December included.
   */
  lemma VentanaDelMesCorregida(d: Date, y: int, m: int)
    requires ValidDate(d) && 1000 <= y <= 9998 && 1 <= m <= 12
    ensures ParseFullDate(LimiteInferior(y, m)) == Some(Date(y, m, 1))
    ensures ParseFullDate(LimiteSuperiorCorregido(y, m)) == Some(PrimeroDelSiguiente(y, m))
    ensures DateLeq(Date(y, m, 1), d) && !DateLeq(PrimeroDelSiguiente(y, m), d) <==> d.year == y && d.month == m
  {
    EntreDosPrimeros(d, y, m);
  }

  /**
   * The whole call: the backend (`consultar`) receives the two bounds and
   * either fails, which is thrown on, or returns the rows, which are summed
   * (`reduce`), grouped by category (the accumulator object) and counted.
   */
  method GetResumenMes(year: int, month: int, consultar: (string, string) -> Outcome<seq<Fila>>)
    returns (r: Outcome<Resumen>)
    ensures r.Failure? <==> consultar(LimiteInferior(year, month), LimiteSuperior(year, month)).Failure?
    ensures r.Success? ==>
              var data := consultar(LimiteInferior(year, month), LimiteSuperior(year, month)).value;
              && r.value.total == Sum(ValoresFilas(data))
              && r.value.cantidad == |data|
              && r.value.porCategoria == PorCategoria(data)
              && Claves(r.value.porCategoria) == Distintas(Etiquetas(data))
              && (forall k :: Lookup(r.value.porCategoria, k) == TotalCategoria(data, k))
              && Sum(Totales(r.value.porCategoria)) == r.value.total
  {
    var respuesta := consultar(LimiteInferior(year, month), LimiteSuperior(year, month));
    if respuesta.Failure? {
      return Failure;
    }
    var data := respuesta.value;
    var total := Sum(ValoresFilas(data));
    var porCategoria := AcumularPorCategoria(data);
    r := Success(Resumen(total, porCategoria, |data|));
  }
}
