/**
 * `Register`: the e-mail sign-up form. `handleEmailRegister` runs three checks
 * in order, passes the fields as typed to `signUp` and shows either the
 * reported error or the success screen.
 */
module Registro {
  import opened Wrappers
  import opened JsStrings
  import Acceso

  const MsgCampos: string := "Todos los campos son obligatorios"
  const MsgNoCoinciden: string := "Las contraseñas no coinciden"
  const MsgCorta: string := "La contraseña debe tener al menos 6 caracteres"
  const MsgErrorCrear: string := "Error al crear la cuenta"

  /** The shortest password accepted, counted in UTF-16 code units. */
  const LongitudMinima: nat := 6

  predicate Completos(email: string, password: string, confirmPassword: string) {
    Trim(email) != [] && Trim(password) != [] && Trim(confirmPassword) != []
  }

  /**
   * The checks of `handleEmailRegister`, in order: no blank field; the two
   * passwords equal; the password at least six code units long (`length`,
   * untrimmed). The first that fails decides the message; `None` when all pass.
   */
  function ValidarRegistro(email: string, password: string, confirmPassword: string): (r: Option<string>)
    ensures r == Some(MsgCampos) <==> !Completos(email, password, confirmPassword)
    ensures r == Some(MsgNoCoinciden) <==> Completos(email, password, confirmPassword) && password != confirmPassword
    ensures r == Some(MsgCorta)
            <==> Completos(email, password, confirmPassword) && password == confirmPassword && JsLength(password) < LongitudMinima
    ensures r.None?
            <==> Completos(email, password, confirmPassword) && password == confirmPassword && JsLength(password) >= LongitudMinima
  {
    if Trim(email) == [] || Trim(password) == [] || Trim(confirmPassword) == [] then Some(MsgCampos)
    else if password != confirmPassword then Some(MsgNoCoinciden)
    else if JsLength(password) < LongitudMinima then Some(MsgCorta)
    else None
  }

  /** Six characters are always enough; three suffice when each lies outside the Basic Multilingual Plane. */
  lemma LongitudAceptada(email: string, password: string)
    requires ValidarRegistro(email, password, password).None?
    ensures |password| >= LongitudMinima / 2
  {
  }

  /** Credentials that pass the sign-up checks also pass the sign-in check. */
  lemma RegistroPasaLogin(email: string, password: string, confirmPassword: string)
    requires ValidarRegistro(email, password, confirmPassword).None?
    ensures Acceso.ValidarLogin(email, password).None?
  {
  }

  /** A password of spaces is refused as missing, however long it is. */
  lemma EspaciosNoSonContrasena(email: string, password: string)
    requires AllWhiteSpace(password)
    ensures ValidarRegistro(email, password, password) == Some(MsgCampos)
  {
  }

  class Register {
    var email: string
    var password: string
    var confirmPassword: string
    var loading: bool
    var error: string
    var success: bool

    constructor ()
      ensures email == "" && password == "" && confirmPassword == ""
      ensures !loading && error == "" && !success
    {
      email := "";
      password := "";
      confirmPassword := "";
      loading := false;
      error := "";
      success := false;
    }

    /**
     * `handleEmailRegister` up to the `await`: a failed check sets its message
     * and stops, with no call; otherwise `loading` becomes true, the error is
     * cleared and `signUp` receives the e-mail and password untrimmed.
     */
    method HandleEmailRegister() returns (llamada: Option<(string, string)>)
      modifies this`loading, this`error
      ensures ValidarRegistro(old(email), old(password), old(confirmPassword)).Some? ==>
                && llamada.None? && loading == old(loading)
                && error == ValidarRegistro(old(email), old(password), old(confirmPassword)).value
      ensures ValidarRegistro(old(email), old(password), old(confirmPassword)).None? ==>
                llamada == Some((old(email), old(password))) && error == "" && loading
    {
      var rechazo := ValidarRegistro(email, password, confirmPassword);
      if rechazo.Some? {
        error := rechazo.value;
        return None;
      }
      loading := true;
      error := "";
      llamada := Some((email, password));
    }

    /**
     * `handleEmailRegister` after `signUp` settles with the error it reports, if
     * any: its message, or the fallback when the message is empty; without an
     * error the success screen is shown. `loading` ends false either way.
     */
    method RegisterSettled(errorAuth: Option<string>)
      modifies this`loading, this`error, this`success
      ensures !loading
      ensures errorAuth.Some? ==> error == OrElse(errorAuth.value, MsgErrorCrear) && error != "" && success == old(success)
      ensures errorAuth.None? ==> success && error == old(error)
    {
      if errorAuth.Some? {
        error := OrElse(errorAuth.value, MsgErrorCrear);
      } else {
        success := true;
      }
      loading := false;
    }
  }
}
