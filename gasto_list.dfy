/**
 * `GastoList`: the table of expenses with its delete button and inline
 * editing. `loading` holds the id of the row whose request is in flight,
 * `editingId` the row being edited and `editData` the values typed so far.
 */
module ListaGastos {
  import opened Wrappers
  import opened JsStrings
  import opened Gastos
  import FormularioGasto

  /**
   * `Partial<Gasto>` as the edit row fills it: each field may be absent. The
   * amount is whatever `parseFloat` made of the input, NaN included.
   */
  datatype EditData = EditData(
    nombre: Option<string>,
    fecha: Option<string>,
    valor: Option<Numero>,
    categoria: Option<string>,
    descripcion: Option<string>)

  /** `{}`. */
  const Vacio: EditData := EditData(None, None, None, None, None)

  /** The values `startEditing` copies from a record into the edit row. */
  function Copia(g: Gasto): (d: EditData)
    ensures d.nombre == Some(g.nombre) && d.fecha == Some(g.fecha) && d.valor == Some(Num(g.valor))
    ensures d.categoria == g.categoria && d.descripcion == g.descripcion
  {
    EditData(Some(g.nombre), Some(g.fecha), Some(Num(g.valor)), g.categoria, g.descripcion)
  }

  /**
   * The check of `saveEdit`, `!editData.nombre || !editData.valor` negated: a
   * present, non-empty name and a present amount that is neither 0 nor NaN
   * (the falsy numbers). Neither blanks nor negative amounts are refused.
   */
  function EdicionValida(d: EditData): (ok: bool)
    ensures ok <==> && d.nombre.Some? && d.nombre.value != ""
                    && d.valor.Some? && d.valor.value.Num? && d.valor.value.value != 0.0
  {
    match (d.nombre, d.valor)
    case (Some(n), Some(Num(v))) => n != "" && v != 0.0
    case _ => false
  }

  /** A record can be saved unchanged from its edit row exactly when its name is non-empty and its amount is not 0. */
  lemma CopiaValida(g: Gasto)
    ensures EdicionValida(Copia(g)) <==> g.nombre != "" && g.valor != 0.0
  {
  }

  /** Everything the create form accepts can be saved unchanged from the edit row. */
  lemma CreadoEditable(nombre: string, fecha: string, valor: string, categoria: string, descripcion: string, parse: string -> Numero)
    requires FormularioGasto.ValidarGasto(nombre, valor, parse).Valido?
    ensures EdicionValida(Copia(FormularioGasto.Pedido(nombre, fecha, FormularioGasto.ValidarGasto(nombre, valor, parse).valorNum, categoria, descripcion)))
  {
    FormularioGasto.PedidoValido(nombre, fecha, valor, categoria, descripcion, parse);
  }

  /**
   * The edit row is more lenient than the create form: a negative amount, or a
   * name made only of spaces, passes `saveEdit` while `handleSubmit` refuses it.
   */
  lemma EdicionMasPermisiva(nombre: string, valor: string, parse: string -> Numero, d: EditData)
    requires Trim(valor) != [] && parse(valor).Num?
    requires (Trim(nombre) != [] && parse(valor).value < 0.0) || (nombre != [] && AllWhiteSpace(nombre) && parse(valor).value != 0.0)
    requires d.nombre == Some(nombre) && d.valor == Some(parse(valor))
    ensures EdicionValida(d)
    ensures FormularioGasto.ValidarGasto(nombre, valor, parse).Invalido?
  {
  }

  class GastoList {
    var loading: Option<int>
    var editingId: Option<int>
    var editData: EditData

    /** No request in flight and no row being edited. */
    constructor ()
      ensures loading.None? && editingId.None? && editData == Vacio
    {
      loading := None;
      editingId := None;
      editData := Vacio;
    }

    /**
     * `handleDelete` up to the `await`: without confirmation nothing happens
     * and no request is sent; with it, the row is marked as loading and the
     * delete request is sent (`borrar`).
     */
    method HandleDelete(id: int, confirmado: bool) returns (borrar: bool)
      modifies this`loading
      ensures borrar == confirmado
      ensures loading == if confirmado then Some(id) else old(loading)
    {
      if !confirmado {
        return false;
      }
      loading := Some(id);
      borrar := true;
    }

    /**
     * `handleDelete` after `delete` settles: on success the id is handed to
     * `onGastoDeleted` (returned here); on failure an alert is shown. Either way
     * no row is loading any more.
     */
    method DeleteSettled(id: int, exito: bool) returns (borrado: Option<int>)
      modifies this`loading
      ensures loading.None?
      ensures borrado == if exito then Some(id) else None
    {
      borrado := if exito then Some(id) else None;
      loading := None;
    }

    /** `startEditing`: the record's row becomes the edit row, holding a copy of its fields. */
    method StartEditing(g: Gasto)
      requires g.id.Some?
      modifies this`editingId, this`editData
      ensures editingId == g.id && editData == Copia(g)
    {
      editingId := g.id;
      editData := Copia(g);
    }

    /** `cancelEditing`: no row is edited and the typed values are dropped. */
    method CancelEditing()
      modifies this`editingId, this`editData
      ensures editingId.None? && editData == Vacio
    {
      editingId := None;
      editData := Vacio;
    }

    /** The date input of the edit row. */
    method EditFecha(s: string)
      modifies this`editData
      ensures editData == old(editData).(fecha := Some(s))
    {
      editData := editData.(fecha := Some(s));
    }

    /** The name input of the edit row. */
    method EditNombre(s: string)
      modifies this`editData
      ensures editData == old(editData).(nombre := Some(s))
    {
      editData := editData.(nombre := Some(s));
    }

    /** The category select of the edit row. */
    method EditCategoria(s: string)
      modifies this`editData
      ensures editData == old(editData).(categoria := Some(s))
    {
      editData := editData.(categoria := Some(s));
    }

    /** The amount input of the edit row, stored as `parseFloat` of the text. */
    method EditValor(s: string, parse: string -> Numero)
      modifies this`editData
      ensures editData == old(editData).(valor := Some(parse(s)))
    {
      editData := editData.(valor := Some(parse(s)));
    }

    /**
     * `saveEdit` up to the `await`: a rejected edit row changes nothing (an
     * alert is shown); an accepted one marks the row as loading and sends the
     * update request for `id` with the typed values.
     */
    method SaveEdit(id: int) returns (pedido: Option<(int, EditData)>)
      modifies this`loading
      ensures !EdicionValida(editData) ==> pedido.None? && loading == old(loading)
      ensures EdicionValida(editData) ==> pedido == Some((id, editData)) && loading == Some(id)
    {
      var sinNombre := editData.nombre.None? || editData.nombre.value == "";
      var sinValor := editData.valor.None? || editData.valor.value.NaN? || editData.valor.value.value == 0.0;
      if sinNombre || sinValor {
        return None;
      }
      loading := Some(id);
      pedido := Some((id, editData));
    }

    /**
     * `saveEdit` after `update` settles: on success the stored record is handed
     * to `onGastoUpdated` (returned here) and editing ends; on failure the edit
     * row stays as it was. Either way no row is loading any more.
     */
    method SaveSettled(respuesta: Outcome<Gasto>) returns (actualizado: Option<Gasto>)
      modifies this
      ensures loading.None?
      ensures respuesta.Success? ==> actualizado == Some(respuesta.value) && editingId.None? && editData == Vacio
      ensures respuesta.Failure? ==> actualizado.None? && editingId == old(editingId) && editData == old(editData)
    {
      match respuesta {
        case Success(g) =>
          actualizado := Some(g);
          editingId := None;
          editData := Vacio;
        case Failure =>
          actualizado := None;
      }
      loading := None;
    }
  }
}
