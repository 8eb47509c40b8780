/**
 * The application's exception taxonomy: a base exception carrying an error
 * code and a message, and four kinds with fixed codes and formatted messages.
 * Each Java constructor and static factory is a function building the value.
 */
module Excepciones {
  import opened Base

  const CodigoGeneral := "GFCT-000"
  const CodigoValidacion := "GFCT-400"
  const CodigoOperacionNoPermitida := "GFCT-403"
  const CodigoNoEncontrada := "GFCT-404"
  const CodigoDuplicado := "GFCT-409"

  /** An exception value: which class it is, its message and the extra fields of that class. */
  datatype Excepcion =
    | Gestion(codigo: string, mensaje: string)
    | Validacion(mensaje: string, campo: Option<string>)
    | Duplicado(mensaje: string, campo: Option<string>, valor: Option<string>)
    | OperacionNoPermitida(mensaje: string, operacion: Option<string>, motivo: string)
    | EntidadNoEncontrada(mensaje: string, tipoEntidad: string, identificador: Option<string>)
  {
    /** getCodigoError: the stored code of a base exception, the fixed code of each subclass. */
    function CodigoError(): (r: string)
      ensures Gestion? ==> r == codigo
      ensures Validacion? ==> r == CodigoValidacion
      ensures Duplicado? ==> r == CodigoDuplicado
      ensures OperacionNoPermitida? ==> r == CodigoOperacionNoPermitida
      ensures EntidadNoEncontrada? ==> r == CodigoNoEncontrada
    {
      match this
      case Gestion(c, _) => c
      case Validacion(_, _) => CodigoValidacion
      case Duplicado(_, _, _) => CodigoDuplicado
      case OperacionNoPermitida(_, _, _) => CodigoOperacionNoPermitida
      case EntidadNoEncontrada(_, _, _) => CodigoNoEncontrada
    }

    /** toString: the code in brackets, a space, then the message. */
    function ToString(): (r: string)
      ensures |r| == |CodigoError()| + 3 + |mensaje|
      ensures r[..|CodigoError()| + 3] == "[" + CodigoError() + "] "
      ensures r[|CodigoError()| + 3..] == mensaje
    {
      "[" + CodigoError() + "] " + mensaje
    }
  }

  // ---------------------------------------------------------------- GestionFCTException

  /** new GestionFCTException(mensaje): the general code. */
  function GestionConMensaje(mensaje: string): (e: Excepcion)
    ensures e.CodigoError() == CodigoGeneral && e.mensaje == mensaje
  {
    Gestion(CodigoGeneral, mensaje)
  }

  /** new GestionFCTException(codigo, mensaje): the given code is kept. */
  function GestionConCodigo(codigo: string, mensaje: string): (e: Excepcion)
    ensures e.CodigoError() == codigo && e.mensaje == mensaje
  {
    Gestion(codigo, mensaje)
  }

  // ---------------------------------------------------------------- ValidacionException

  /** new ValidacionException(mensaje): the message verbatim, no field. */
  function ValidacionMensaje(mensaje: string): (e: Excepcion)
    ensures e.CodigoError() == CodigoValidacion
    ensures e.Validacion? && e.mensaje == mensaje && e.campo == None
  {
    Validacion(mensaje, None)
  }

  function MensajeCampo(campo: string, mensaje: string): string
  {
    "Error en campo '" + campo + "': " + mensaje
  }

  /** new ValidacionException(campo, mensaje): the field is stored and named in the message. */
  function ValidacionCampo(campo: string, mensaje: string): (e: Excepcion)
    ensures e.CodigoError() == CodigoValidacion
    ensures e.Validacion? && e.campo == Some(campo)
    ensures e.mensaje == MensajeCampo(campo, mensaje)
  {
    Validacion(MensajeCampo(campo, mensaje), Some(campo))
  }

  /** campoObligatorio(campo): the field with reason "es obligatorio". */
  function CampoObligatorio(campo: string): (e: Excepcion)
    ensures e.Validacion? && e.CodigoError() == CodigoValidacion && e.campo == Some(campo)
    ensures e.mensaje == MensajeCampo(campo, "es obligatorio")
  {
    ValidacionCampo(campo, "es obligatorio")
  }

  /** formatoInvalido(campo, formato): the field with the expected format in the reason. */
  function FormatoInvalido(campo: string, formatoEsperado: string): (e: Excepcion)
    ensures e.Validacion? && e.CodigoError() == CodigoValidacion && e.campo == Some(campo)
    ensures e.mensaje == MensajeCampo(campo, "formato inválido. Se esperaba: " + formatoEsperado)
  {
    ValidacionCampo(campo, "formato inválido. Se esperaba: " + formatoEsperado)
  }

  /** fueraDeRango(campo, min, max), with the bounds as their text. */
  function FueraDeRango(campo: string, min: string, max: string): (e: Excepcion)
    ensures e.Validacion? && e.CodigoError() == CodigoValidacion && e.campo == Some(campo)
    ensures e.mensaje == MensajeCampo(campo, "debe estar entre " + min + " y " + max)
  {
    ValidacionCampo(campo, "debe estar entre " + min + " y " + max)
  }

  // ---------------------------------------------------------------- DuplicadoException

  function MensajeDuplicado(campo: string, valor: string): string
  {
    "Ya existe un registro con " + campo + " = '" + valor + "'"
  }

  /** new DuplicadoException(campo, valor), with the value as its text. */
  function DuplicadoCampo(campo: string, valor: string): (e: Excepcion)
    ensures e.CodigoError() == CodigoDuplicado
    ensures e.Duplicado? && e.campo == Some(campo) && e.valor == Some(valor)
    ensures e.mensaje == MensajeDuplicado(campo, valor)
  {
    Duplicado(MensajeDuplicado(campo, valor), Some(campo), Some(valor))
  }

  /** new DuplicadoException(mensaje): no field and no value. */
  function DuplicadoMensaje(mensaje: string): (e: Excepcion)
    ensures e.CodigoError() == CodigoDuplicado
    ensures e.Duplicado? && e.mensaje == mensaje && e.campo == None && e.valor == None
  {
    Duplicado(mensaje, None, None)
  }

  /** nifDuplicado, emailDuplicado and dniDuplicado name the fields "NIF", "email" and "DNI". */
  function NifDuplicado(nif: string): (e: Excepcion)
    ensures e.Duplicado? && e.CodigoError() == CodigoDuplicado && e.campo == Some("NIF") && e.valor == Some(nif)
    ensures e.mensaje == MensajeDuplicado("NIF", nif)
  {
    DuplicadoCampo("NIF", nif)
  }

  function EmailDuplicado(email: string): (e: Excepcion)
    ensures e.Duplicado? && e.CodigoError() == CodigoDuplicado && e.campo == Some("email") && e.valor == Some(email)
    ensures e.mensaje == MensajeDuplicado("email", email)
  {
    DuplicadoCampo("email", email)
  }

  function DniDuplicado(dni: string): (e: Excepcion)
    ensures e.Duplicado? && e.CodigoError() == CodigoDuplicado && e.campo == Some("DNI") && e.valor == Some(dni)
    ensures e.mensaje == MensajeDuplicado("DNI", dni)
  {
    DuplicadoCampo("DNI", dni)
  }

  // ---------------------------------------------------------------- OperacionNoPermitidaException

  /** new OperacionNoPermitidaException(mensaje): no operation, the message is the reason. */
  function OperacionMensaje(mensaje: string): (e: Excepcion)
    ensures e.CodigoError() == CodigoOperacionNoPermitida
    ensures e.OperacionNoPermitida? && e.mensaje == mensaje && e.operacion == None && e.motivo == mensaje
  {
    OperacionNoPermitida(mensaje, None, mensaje)
  }

  function MensajeOperacion(operacion: string, motivo: string): string
  {
    "Operación '" + operacion + "' no permitida: " + motivo
  }

  /** new OperacionNoPermitidaException(operacion, motivo). */
  function OperacionMotivo(operacion: string, motivo: string): (e: Excepcion)
    ensures e.CodigoError() == CodigoOperacionNoPermitida
    ensures e.OperacionNoPermitida? && e.operacion == Some(operacion) && e.motivo == motivo
    ensures e.mensaje == MensajeOperacion(operacion, motivo)
  {
    OperacionNoPermitida(MensajeOperacion(operacion, motivo), Some(operacion), motivo)
  }

  /** eliminacionConDependencias(entidad, dependencia). */
  function EliminacionConDependencias(entidad: string, dependencia: string): (e: Excepcion)
    ensures e.OperacionNoPermitida? && e.CodigoError() == CodigoOperacionNoPermitida
    ensures e.operacion == Some("eliminar " + entidad) && e.motivo == "tiene " + dependencia + " asociados. Debe eliminarlos primero."
    ensures e.mensaje == MensajeOperacion("eliminar " + entidad, "tiene " + dependencia + " asociados. Debe eliminarlos primero.")
  {
    OperacionMotivo("eliminar " + entidad, "tiene " + dependencia + " asociados. Debe eliminarlos primero.")
  }

  /** modificacionNoPermitida(entidad, estado). */
  function ModificacionNoPermitida(entidad: string, estado: string): (e: Excepcion)
    ensures e.OperacionNoPermitida? && e.CodigoError() == CodigoOperacionNoPermitida
    ensures e.operacion == Some("modificar " + entidad) && e.motivo == "no se puede modificar en estado " + estado
    ensures e.mensaje == MensajeOperacion("modificar " + entidad, "no se puede modificar en estado " + estado)
  {
    OperacionMotivo("modificar " + entidad, "no se puede modificar en estado " + estado)
  }

  /** asignacionDuplicada(mensaje). */
  function AsignacionDuplicada(mensaje: string): (e: Excepcion)
    ensures e.OperacionNoPermitida? && e.CodigoError() == CodigoOperacionNoPermitida
    ensures e.operacion == Some("asignar FCT") && e.motivo == mensaje
    ensures e.mensaje == MensajeOperacion("asignar FCT", mensaje)
  {
    OperacionMotivo("asignar FCT", mensaje)
  }

  // ---------------------------------------------------------------- EntidadNoEncontradaException

  function MensajeNoEncontrada(tipoEntidad: string, identificador: string): string
  {
    tipoEntidad + " con identificador '" + identificador + "' no encontrado/a"
  }

  /** new EntidadNoEncontradaException(tipoEntidad, identificador), the identifier as its text. */
  function NoEncontrada(tipoEntidad: string, identificador: string): (e: Excepcion)
    ensures e.CodigoError() == CodigoNoEncontrada
    ensures e.EntidadNoEncontrada? && e.tipoEntidad == tipoEntidad && e.identificador == Some(identificador)
    ensures e.mensaje == MensajeNoEncontrada(tipoEntidad, identificador)
  {
    EntidadNoEncontrada(MensajeNoEncontrada(tipoEntidad, identificador), tipoEntidad, Some(identificador))
  }

  /** new EntidadNoEncontradaException(mensaje): the entity type "Entidad" and no identifier. */
  function NoEncontradaMensaje(mensaje: string): (e: Excepcion)
    ensures e.CodigoError() == CodigoNoEncontrada
    ensures e.EntidadNoEncontrada? && e.mensaje == mensaje
    ensures e.tipoEntidad == "Entidad" && e.identificador == None
  {
    EntidadNoEncontrada(mensaje, "Entidad", None)
  }

  // ---------------------------------------------------------------- reading messages back

  /** The position of the first apostrophe in `s`, or |s| when there is none. */
  function FirstQuote(s: string): (k: nat)
    ensures k <= |s|
    ensures forall i :: 0 <= i < k ==> s[i] != '\''
    ensures k < |s| ==> s[k] == '\''
  {
    if s == [] || s[0] == '\'' then 0 else 1 + FirstQuote(s[1..])
  }

  lemma FirstQuoteAfter(a: string, b: string)
    requires '\'' !in a
    ensures FirstQuote(a + "'" + b) == |a|
    ensures (a + "'" + b)[..|a|] == a && (a + "'" + b)[|a| + 1..] == b
  {
    var s := a + "'" + b;
    assert forall i :: 0 <= i < |a| ==> s[i] == a[i];
    assert s[|a|] == '\'';
  }

  /**
   * Recovers field and reason from a validation message: what follows the
   * fixed opening up to the next apostrophe, and what follows "': ".
   */
  function LeerMensajeCampo(s: string): Option<(string, string)>
  {
    var pre := "Error en campo '";
    if pre <= s then
      var rest := s[|pre|..];
      var k := FirstQuote(rest);
      if "': " <= rest[k..] then Some((rest[..k], rest[k + 3..])) else None
    else None
  }

  /** A validation message names its field and reason unambiguously when the field has no apostrophe. */
  lemma LeerMensajeCampoRoundTrip(campo: string, mensaje: string)
    requires '\'' !in campo
    ensures LeerMensajeCampo(MensajeCampo(campo, mensaje)) == Some((campo, mensaje))
  {
    var pre := "Error en campo '";
    var s := MensajeCampo(campo, mensaje);
    assert s == pre + (campo + "'" + (": " + mensaje));
    var rest := s[|pre|..];
    assert rest == campo + "'" + (": " + mensaje);
    FirstQuoteAfter(campo, ": " + mensaje);
    var k := |campo|;
    assert rest[k..] == "': " + mensaje;
    assert rest[k + 3..] == mensaje;
  }

  /** Recovers field and value from a duplicate message. */
  function LeerMensajeDuplicado(s: string): Option<(string, string)>
  {
    var pre := "Ya existe un registro con ";
    if pre <= s && |s| > |pre| then
      var rest := s[|pre|..|s| - 1];
      var k := FirstQuote(rest);
      if k >= 3 && rest[k - 3..k] == " = " && k < |rest| then Some((rest[..k - 3], rest[k + 1..])) else None
    else None
  }

  /** A duplicate message names its field and value unambiguously when the field has no apostrophe. */
  lemma LeerMensajeDuplicadoRoundTrip(campo: string, valor: string)
    requires '\'' !in campo
    ensures LeerMensajeDuplicado(MensajeDuplicado(campo, valor)) == Some((campo, valor))
  {
    var c3 := campo + " = ";
    assert '\'' !in c3 by {
      forall i | 0 <= i < |c3| ensures c3[i] != '\'' { if i < |campo| { assert c3[i] == campo[i]; } }
    }
    CuerpoDuplicado(campo, valor);
    var rest := c3 + "'" + valor;
    FirstQuoteAfter(c3, valor);
    var k := |c3|;
    assert rest[k - 3..k] == " = ";
    assert rest[..k - 3] == campo;
  }

  /** Between the fixed opening and the closing apostrophe, a duplicate message holds "<field> = '<value>". */
  lemma CuerpoDuplicado(campo: string, valor: string)
    ensures var pre, s := "Ya existe un registro con ", MensajeDuplicado(campo, valor);
      pre <= s && |s| > |pre| && s[|pre|..|s| - 1] == campo + " = " + "'" + valor
  {
    var pre, s := "Ya existe un registro con ", MensajeDuplicado(campo, valor);
    var cuerpo := campo + " = " + "'" + valor;
    assert s == pre + cuerpo + "'";
    assert s[|pre|..|s| - 1] == cuerpo;
  }

  /** Recovers operation and reason from a not-allowed message. */
  function LeerMensajeOperacion(s: string): Option<(string, string)>
  {
    var pre := "Operación '";
    var mid := "' no permitida: ";
    if pre <= s then
      var rest := s[|pre|..];
      var k := FirstQuote(rest);
      if mid <= rest[k..] then Some((rest[..k], rest[k + |mid|..])) else None
    else None
  }

  /** A not-allowed message names its operation and reason unambiguously when the operation has no apostrophe. */
  lemma LeerMensajeOperacionRoundTrip(operacion: string, motivo: string)
    requires '\'' !in operacion
    ensures LeerMensajeOperacion(MensajeOperacion(operacion, motivo)) == Some((operacion, motivo))
  {
    var mid := "' no permitida: ";
    CuerpoOperacion(operacion, motivo);
    var rest := operacion + "'" + (" no permitida: " + motivo);
    FirstQuoteAfter(operacion, " no permitida: " + motivo);
    var k := |operacion|;
    assert rest[k..] == mid + motivo;
    assert rest[k + |mid|..] == motivo;
  }

  /** After the fixed opening, a not-allowed message holds "<operation>' no permitida: <reason>". */
  lemma CuerpoOperacion(operacion: string, motivo: string)
    ensures var pre, s := "Operación '", MensajeOperacion(operacion, motivo);
      pre <= s && s[|pre|..] == operacion + "'" + (" no permitida: " + motivo)
  {
    var pre, s := "Operación '", MensajeOperacion(operacion, motivo);
    var mid := "' no permitida: ";
    assert mid == "'" + " no permitida: ";
    var cuerpo := operacion + "'" + (" no permitida: " + motivo);
    assert operacion + mid + motivo == cuerpo;
    assert s == pre + (operacion + mid + motivo);
    assert s[|pre|..] == cuerpo;
  }

  /** Recovers entity type and identifier from a not-found message. */
  function LeerMensajeNoEncontrada(s: string): Option<(string, string)>
  {
    var mid := " con identificador '";
    var post := "' no encontrado/a";
    var k := FirstQuote(s);
    if k < |s| && k + 1 >= |mid| && s[k + 1 - |mid|..k + 1] == mid && |s| >= k + 1 + |post| && s[|s| - |post|..] == post
    then Some((s[..k + 1 - |mid|], s[k + 1..|s| - |post|]))
    else None
  }

  /** A not-found message names its type and identifier unambiguously when the type has no apostrophe. */
  lemma LeerMensajeNoEncontradaRoundTrip(tipoEntidad: string, identificador: string)
    requires '\'' !in tipoEntidad
    ensures LeerMensajeNoEncontrada(MensajeNoEncontrada(tipoEntidad, identificador)) == Some((tipoEntidad, identificador))
  {
    var mid := " con identificador '";
    var post := "' no encontrado/a";
    var t := tipoEntidad + " con identificador ";
    assert '\'' !in t by {
      forall i | 0 <= i < |t| ensures t[i] != '\'' { if i < |tipoEntidad| { assert t[i] == tipoEntidad[i]; } }
    }
    var s := MensajeNoEncontrada(tipoEntidad, identificador);
    assert s == t + "'" + (identificador + post);
    FirstQuoteAfter(t, identificador + post);
    var k := FirstQuote(s);
    assert k == |t|;
    assert s[k + 1 - |mid|..k + 1] == mid;
    assert s[|s| - |post|..] == post;
    assert s[..k + 1 - |mid|] == tipoEntidad;
    assert s[k + 1..|s| - |post|] == identificador;
  }
}
