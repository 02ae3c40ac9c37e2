/**
 * `Login`: the e-mail sign-in form. `handleEmailLogin` refuses blank fields,
 * then passes the fields as typed to `signIn` and shows the error it reports.
 */
module Acceso {
  import opened Wrappers
  import opened JsStrings

  const MsgObligatorios: string := "Email y contraseña son obligatorios"
  const MsgErrorIniciar: string := "Error al iniciar sesión"

  /** The check of `handleEmailLogin`: the message shown, or `None` when both fields are non-blank. */
  function ValidarLogin(email: string, password: string): (r: Option<string>)
    ensures r == Some(MsgObligatorios) <==> Trim(email) == [] || Trim(password) == []
    ensures r.None? <==> Trim(email) != [] && Trim(password) != []
  {
    if Trim(email) == [] || Trim(password) == [] then Some(MsgObligatorios) else None
  }

  /** Surrounding spaces do not matter to the check: a field passes exactly when its trimmed text does. */
  lemma ValidarLoginRecortado(email: string, password: string)
    ensures ValidarLogin(Trim(email), Trim(password)) == ValidarLogin(email, password)
  {
    TrimIdempotent(email);
    TrimIdempotent(password);
  }

  class Login {
    var email: string
    var password: string
    var loading: bool
    var error: string

    constructor ()
      ensures email == "" && password == "" && !loading && error == ""
    {
      email := "";
      password := "";
      loading := false;
      error := "";
    }

    /**
     * `handleEmailLogin` up to the `await`: blank fields set the message and
     * stop, with no call; otherwise `loading` becomes true, the error is cleared
     * and `signIn` receives the e-mail and password untrimmed.
     */
    method HandleEmailLogin() returns (llamada: Option<(string, string)>)
      modifies this`loading, this`error
      ensures ValidarLogin(old(email), old(password)).Some? ==>
                llamada.None? && error == ValidarLogin(old(email), old(password)).value && loading == old(loading)
      ensures ValidarLogin(old(email), old(password)).None? ==>
                llamada == Some((old(email), old(password))) && error == "" && loading
    {
      var rechazo := ValidarLogin(email, password);
      if rechazo.Some? {
        error := rechazo.value;
        return None;
      }
      loading := true;
      error := "";
      llamada := Some((email, password));
    }

    /**
     * `handleEmailLogin` after `signIn` settles with the error it reports, if any:
     * its message, or the fallback when the message is empty; `loading` ends false.
     */
    method LoginSettled(errorAuth: Option<string>)
      modifies this`loading, this`error
      ensures !loading
      ensures errorAuth.Some? ==> error == OrElse(errorAuth.value, MsgErrorIniciar) && error != ""
      ensures errorAuth.None? ==> error == old(error)
    {
      if errorAuth.Some? {
        error := OrElse(errorAuth.value, MsgErrorIniciar);
      }
      loading := false;
    }
  }
}
