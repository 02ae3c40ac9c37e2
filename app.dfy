/**
 * `AuthenticatedApp`: the in-memory list of expenses shown by the signed-in
 * application, the handlers that load it and keep it in step with the
 * backend after a create, delete or update, and the selected tab.
 */
module App {
  import opened Wrappers
  import opened Gastos

  /** The three tabs: `'dashboard' | 'agregar' | 'lista'`. */
  datatype Tab = Dashboard | Agregar | Lista

  const ErrorAlCargar: string := "Error al cargar los gastos."

  /** The ids in use in a list. */
  function Ids(gs: seq<Gasto>): set<int> {
    set g | g in gs && g.id.Some? :: g.id.value
  }

  /** `[nuevoGasto, ...prev]`: the new record goes first; the others follow in their order. */
  function ConNuevo(nuevo: Gasto, prev: seq<Gasto>): (r: seq<Gasto>)
    ensures |r| == |prev| + 1
    ensures r[0] == nuevo && r[1..] == prev
  {
    [nuevo] + prev
  }

  /** `prev.filter(gasto => gasto.id !== id)`: a record without an id is never removed. */
  function SinId(prev: seq<Gasto>, id: int): (r: seq<Gasto>)
    ensures |r| <= |prev|
    ensures forall g :: g in r <==> g in prev && g.id != Some(id)
  {
    if prev == [] then []
    else
      var rest := SinId(prev[1..], id);
      assert forall g :: g in prev <==> g == prev[0] || g in prev[1..];
      if prev[0].id != Some(id) then [prev[0]] + rest else rest
  }

  /**
   * `prev.map(gasto => gasto.id === gastoActualizado.id ? gastoActualizado : gasto)`.
   * Ids are compared as optional values, so a record without an id matches an
   * update that has none either (`undefined === undefined`).
   */
  function ConActualizado(prev: seq<Gasto>, g: Gasto): (r: seq<Gasto>)
    ensures |r| == |prev|
    ensures forall i :: 0 <= i < |prev| ==> r[i] == if prev[i].id == g.id then g else prev[i]
  {
    if prev == [] then [] else [if prev[0].id == g.id then g else prev[0]] + ConActualizado(prev[1..], g)
  }

  /** Filtering works piecewise, so the records that stay keep their relative order. */
  lemma {:induction false} SinIdConcat(a: seq<Gasto>, b: seq<Gasto>, id: int)
    ensures SinId(a + b, id) == SinId(a, id) + SinId(b, id)
  {
    if a == [] {
      assert a + b == b;
    } else {
      assert (a + b)[0] == a[0] && (a + b)[1..] == a[1..] + b;
      SinIdConcat(a[1..], b, id);
    }
  }

  /**
   * A create keeps the list in newest-first order exactly when the new record
   * is at least as recent as the one that was first: `handleGastoCreated`
   * puts it in front whatever its date.
   */
  lemma ConNuevoOrdenado(nuevo: Gasto, prev: seq<Gasto>)
    requires OrdenadosPorFecha(prev) && prev != []
    ensures OrdenadosPorFecha(ConNuevo(nuevo, prev)) <==> MasReciente(nuevo, prev[0])
  {
    var r := ConNuevo(nuevo, prev);
    if MasReciente(nuevo, prev[0]) {
      forall i, j | 0 <= i < j < |r|
        ensures MasReciente(r[i], r[j])
      {
        if i == 0 {
          if j > 1 {
            MasRecienteTransitivo(nuevo, prev[0], prev[j - 1]);
          }
        } else {
          assert r[i] == prev[i - 1] && r[j] == prev[j - 1];
        }
      }
    } else {
      assert r[0] == nuevo && r[1] == prev[0];
    }
  }

  /** Deleting an id that no record carries leaves the list as it was. */
  lemma {:induction false} SinIdAusente(prev: seq<Gasto>, id: int)
    requires id !in Ids(prev)
    ensures SinId(prev, id) == prev
  {
    if prev != [] {
      assert prev[0] in prev;
      assert Ids(prev[1..]) <= Ids(prev) by {
        forall x | x in Ids(prev[1..]) ensures x in Ids(prev) {
          var g :| g in prev[1..] && g.id.Some? && g.id.value == x;
          assert g in prev;
        }
      }
      SinIdAusente(prev[1..], id);
    }
  }

  /** Deleting is idempotent: a second delete of the same id changes nothing. */
  lemma SinIdIdempotente(prev: seq<Gasto>, id: int)
    ensures SinId(SinId(prev, id), id) == SinId(prev, id)
  {
    SinIdAusente(SinId(prev, id), id);
  }

  /** Deleting a record just created, under an id not yet in use, gives back the previous list. */
  lemma CrearYBorrar(nuevo: Gasto, prev: seq<Gasto>)
    requires nuevo.id.Some? && nuevo.id.value !in Ids(prev)
    ensures SinId(ConNuevo(nuevo, prev), nuevo.id.value) == prev
  {
    var id := nuevo.id.value;
    SinIdConcat([nuevo], prev, id);
    assert [nuevo] + prev == ConNuevo(nuevo, prev);
    SinIdAusente(prev, id);
  }

  /** Updating a record and then deleting its id is the same as deleting it straight away. */
  lemma {:induction false} ActualizarYBorrar(prev: seq<Gasto>, g: Gasto)
    requires g.id.Some?
    ensures SinId(ConActualizado(prev, g), g.id.value) == SinId(prev, g.id.value)
  {
    if prev != [] {
      ActualizarYBorrar(prev[1..], g);
      assert ConActualizado(prev, g)[1..] == ConActualizado(prev[1..], g);
    }
  }

  /** An update whose id no record carries leaves the list as it was. */
  lemma ActualizarAusente(prev: seq<Gasto>, g: Gasto)
    requires g.id.Some? && g.id.value !in Ids(prev)
    ensures ConActualizado(prev, g) == prev
  {
    forall i | 0 <= i < |prev| ensures prev[i].id != g.id {
      assert prev[i] in prev;
    }
  }

  /** Applying the same update twice is applying it once. */
  lemma ActualizarIdempotente(prev: seq<Gasto>, g: Gasto)
    ensures ConActualizado(ConActualizado(prev, g), g) == ConActualizado(prev, g)
  {
  }

  /** The header total after a create grows by the new amount. */
  lemma TotalConNuevo(nuevo: Gasto, prev: seq<Gasto>)
    ensures Total(ConNuevo(nuevo, prev)) == nuevo.valor + Total(prev)
  {
    TotalAppend([nuevo], prev);
    assert Valores([nuevo]) == [nuevo.valor];
    SumCons(nuevo.valor, []);
  }

  /** The count badge of a tab: the number of records on the dashboard and list tabs, none on the add tab. */
  function Conteo(tab: Tab, n: nat): (c: Option<nat>)
    ensures c.None? <==> tab == Agregar
    ensures c.Some? ==> c.value == n
  {
    match tab
    case Agregar => None
    case _ => Some(n)
  }

  class AuthenticatedApp {
    var gastos: seq<Gasto>
    var loading: bool
    var error: string
    var activeTab: Tab

    /** The initial state: no records, loading, no error, the dashboard tab. */
    constructor ()
      ensures gastos == [] && loading && error == "" && activeTab == Dashboard
    {
      gastos := [];
      loading := true;
      error := "";
      activeTab := Dashboard;
    }

    /** `loadGastos` up to the `await`: `loading` becomes true. */
    method LoadGastos()
      modifies this
      ensures loading
      ensures gastos == old(gastos) && error == old(error) && activeTab == old(activeTab)
    {
      loading := true;
    }

    /**
     * `loadGastos` after `getAll` settles: the returned rows (or `[]` for a null
     * result) and no error, or no rows and the load error; `loading` ends false.
     */
    method LoadSettled(respuesta: Outcome<Option<seq<Gasto>>>)
      modifies this
      ensures !loading && activeTab == old(activeTab)
      ensures respuesta.Success? ==> error == "" && gastos == (if respuesta.value.Some? then respuesta.value.value else [])
      ensures respuesta.Failure? ==> error == ErrorAlCargar && gastos == []
    {
      match respuesta {
        case Success(data) =>
          gastos := if data.Some? then data.value else [];
          error := "";
        case Failure =>
          error := ErrorAlCargar;
          gastos := [];
      }
      loading := false;
    }

    /** `handleGastoCreated`: the record goes first and the list tab is shown. */
    method HandleGastoCreated(nuevo: Gasto)
      modifies this
      ensures gastos == ConNuevo(nuevo, old(gastos)) && activeTab == Lista
      ensures loading == old(loading) && error == old(error)
    {
      gastos := ConNuevo(nuevo, gastos);
      activeTab := Lista;
    }

    /** `handleGastoDeleted`: the records with that id go; nothing else changes. */
    method HandleGastoDeleted(id: int)
      modifies this
      ensures gastos == SinId(old(gastos), id)
      ensures loading == old(loading) && error == old(error) && activeTab == old(activeTab)
    {
      gastos := SinId(gastos, id);
    }

    /** `handleGastoUpdated`: the records with the same id are replaced; nothing else changes. */
    method HandleGastoUpdated(g: Gasto)
      modifies this
      ensures gastos == ConActualizado(old(gastos), g)
      ensures loading == old(loading) && error == old(error) && activeTab == old(activeTab)
    {
      gastos := ConActualizado(gastos, g);
    }

    /** A click on a tab button selects that tab. */
    method SelectTab(tab: Tab)
      modifies this`activeTab
      ensures activeTab == tab
    {
      activeTab := tab;
    }

    /** The `tabs` array: each tab with its count badge, in display order. */
    function Tabs(): (ts: seq<(Tab, Option<nat>)>)
      reads this
      ensures |ts| == 3 && ts[0].0 == Dashboard && ts[1].0 == Agregar && ts[2].0 == Lista
      ensures forall i :: 0 <= i < |ts| ==> ts[i].1 == Conteo(ts[i].0, |gastos|)
    {
      [(Dashboard, Some(|gastos|)), (Agregar, None), (Lista, Some(|gastos|))]
    }
  }
}
