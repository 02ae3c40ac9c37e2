/**
 * `GastoForm`: the create-expense form. `handleSubmit` checks the name and the
 * amount in a fixed order, sends the trimmed record to the backend and, once
 * it is stored, clears the form for the next entry.
 */
module FormularioGasto {
  import opened Wrappers
  import opened JsStrings
  import opened Dates
  import opened Gastos
  import Dashboard

  /** The category choices offered by the form, in display order. */
  const OpcionesDeCategoria: seq<string> :=
    ["Alimentación", "Transporte", "Servicios", "Entretenimiento", "Salud", "Ropa", "Otros"]

  const CategoriaPorDefecto: string := "Alimentación"

  const MsgObligatorios: string := "Nombre y valor son obligatorios"
  const MsgValorInvalido: string := "El valor debe ser un número mayor a 0"
  const MsgErrorGuardar: string := "Error al guardar el gasto"

  /** The outcome of the checks: the parsed amount, or the message shown. */
  datatype Validacion = Valido(valorNum: real) | Invalido(mensaje: string)

  /** Seven distinct labels, the default first among them. */
  lemma CategoriasFijas()
    ensures |OpcionesDeCategoria| == 7 && OpcionesDeCategoria[0] == CategoriaPorDefecto
    ensures forall i, j :: 0 <= i < j < |OpcionesDeCategoria| ==> OpcionesDeCategoria[i] != OpcionesDeCategoria[j]
  {
  }

  /**
   * The two checks of `handleSubmit`, in order: both fields must be non-blank;
   * then `parseFloat(valor)` must give a number greater than 0. The first check
   * that fails decides the message.
   */
  function ValidarGasto(nombre: string, valor: string, parse: string -> Numero): (r: Validacion)
    ensures r == Invalido(MsgObligatorios) <==> Trim(nombre) == [] || Trim(valor) == []
    ensures r == Invalido(MsgValorInvalido)
            <==> Trim(nombre) != [] && Trim(valor) != [] && (parse(valor).NaN? || parse(valor).value <= 0.0)
    ensures r.Valido? <==> Trim(nombre) != [] && Trim(valor) != [] && parse(valor).Num? && parse(valor).value > 0.0
    ensures r.Valido? ==> r.valorNum == parse(valor).value && r.valorNum > 0.0
  {
    if Trim(nombre) == [] || Trim(valor) == [] then Invalido(MsgObligatorios)
    else
      match parse(valor)
      case NaN => Invalido(MsgValorInvalido)
      case Num(v) => if v <= 0.0 then Invalido(MsgValorInvalido) else Valido(v)
  }

  /** A blank amount is reported as missing, never as an invalid number, whatever `parseFloat` makes of it. */
  lemma EnBlancoAntesQueInvalido(nombre: string, valor: string, parse: string -> Numero)
    requires AllWhiteSpace(valor)
    ensures ValidarGasto(nombre, valor, parse) == Invalido(MsgObligatorios)
  {
  }

  /**
   * The record sent to `gastosService.create`: trimmed name and description, the
   * parsed amount, date and category as entered; `id` and `created_at` are left
   * to the backend.
   */
  function Pedido(nombre: string, fecha: string, valorNum: real, categoria: string, descripcion: string): (g: Gasto)
    ensures g.id.None? && g.createdAt.None?
    ensures g.nombre == Trim(nombre) && g.descripcion == Some(Trim(descripcion))
    ensures g.fecha == fecha && g.valor == valorNum && g.categoria == Some(categoria)
  {
    Gasto(None, Trim(nombre), fecha, valorNum, Some(categoria), Some(Trim(descripcion)), None)
  }

  /** A record that passed the checks has a non-blank, already trimmed name and a positive amount. */
  lemma PedidoValido(nombre: string, fecha: string, valor: string, categoria: string, descripcion: string, parse: string -> Numero)
    requires ValidarGasto(nombre, valor, parse).Valido?
    ensures var g := Pedido(nombre, fecha, ValidarGasto(nombre, valor, parse).valorNum, categoria, descripcion);
            g.nombre != [] && Trim(g.nombre) == g.nombre && g.valor > 0.0
  {
    TrimIdempotent(nombre);
  }

  /** A record dated with the form's default date counts toward the dashboard's current month. */
  lemma FechaDeHoyEnMes(g: Gasto, hoy: Date)
    requires ValidDate(hoy) && 0 <= hoy.year <= 9999
    requires g.fecha == FormatFullDate(hoy)
    ensures Dashboard.EnMesActual(g, hoy)
  {
  }

  class GastoForm {
    var nombre: string
    var fecha: string
    var valor: string
    var categoria: string
    var descripcion: string
    var loading: bool
    var error: string

    /** Empty fields, today's date, the default category, not loading and no error. */
    constructor (hoy: Date)
      requires ValidDate(hoy) && 0 <= hoy.year <= 9999
      ensures nombre == "" && valor == "" && descripcion == ""
      ensures fecha == FormatFullDate(hoy) && categoria == CategoriaPorDefecto
      ensures !loading && error == ""
    {
      nombre := "";
      fecha := FormatFullDate(hoy);
      valor := "";
      categoria := CategoriaPorDefecto;
      descripcion := "";
      loading := false;
      error := "";
    }

    /**
     * `handleSubmit` up to the `await`: a failed check sets its message and
     * stops; otherwise `loading` becomes true, the error is cleared and the
     * record to create is returned. Only `loading` and `error` may change.
     */
    method HandleSubmit(parse: string -> Numero) returns (pedido: Option<Gasto>)
      modifies this`loading, this`error
      ensures ValidarGasto(old(nombre), old(valor), parse).Invalido? ==>
                && pedido.None? && error == ValidarGasto(old(nombre), old(valor), parse).mensaje
                && loading == old(loading)
      ensures ValidarGasto(old(nombre), old(valor), parse).Valido? ==>
                && pedido == Some(Pedido(old(nombre), old(fecha), ValidarGasto(old(nombre), old(valor), parse).valorNum,
                                         old(categoria), old(descripcion)))
                && error == "" && loading
    {
      var validacion := ValidarGasto(nombre, valor, parse);
      if validacion.Invalido? {
        error := validacion.mensaje;
        return None;
      }

      pedido := Some(Pedido(nombre, fecha, validacion.valorNum, categoria, descripcion));
      loading, error := true, "";
    }

    /**
     * `handleSubmit` after `create` settles. On success the stored record is
     * handed to `onGastoCreated` (returned here) and the form is cleared, with
     * the date back to today and the category kept; on failure the fields are
     * kept and the save error is shown. `loading` ends false either way.
     */
    method SubmitSettled(respuesta: Outcome<Gasto>, hoy: Date) returns (creado: Option<Gasto>)
      requires ValidDate(hoy) && 0 <= hoy.year <= 9999
      modifies this
      ensures !loading && categoria == old(categoria)
      ensures respuesta.Success? ==>
                && creado == Some(respuesta.value)
                && nombre == "" && valor == "" && descripcion == ""
                && fecha == FormatFullDate(hoy) && ParseFullDate(fecha) == Some(hoy)
                && error == old(error)
      ensures respuesta.Failure? ==>
                && creado.None? && error == MsgErrorGuardar
                && nombre == old(nombre) && valor == old(valor)
                && descripcion == old(descripcion) && fecha == old(fecha)
    {
      match respuesta {
        case Success(nuevoGasto) =>
          creado := Some(nuevoGasto);
          nombre := "";
          valor := "";
          descripcion := "";
          fecha := FormatFullDate(hoy);
        case Failure =>
          creado := None;
          error := MsgErrorGuardar;
      }
      loading := false;
    }
  }
}
