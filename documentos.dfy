/**
 * The rule blocks of GestionDocumentosController: the table filter, the
 * placements offered as upload targets, and the upload dialog (validation
 * and construction of the new document). The stored documents and
 * placements are sequences of objects; the chosen file is a value.
 */
module GestionDocumentos {
  import opened Base
  import opened Texto
  import opened Fechas
  import opened Valores
  import opened Excepciones
  import opened Modelo
  import opened UsuarioServicio

  // ---------------------------------------------------------------- filter

  /** The type and placement filters; an unset filter lets everything through. */
  predicate PasaTipoYFct(d: Documento, tipoFiltro: Option<TipoDocumento>, fctFiltro: FCT?)
    reads d
  {
    (tipoFiltro.None? || d.tipo == tipoFiltro) && (fctFiltro == null || d.fct == fctFiltro)
  }

  /**
   * The stream filter of aplicarFiltros for one document, with the search
   * already lower-cased and trimmed: the name (lower-cased without a null
   * check) or the description when there is one.
   */
  predicate PasaFiltroDocumento(d: Documento, busqueda: string, tipoFiltro: Option<TipoDocumento>, fctFiltro: FCT?)
    reads d
    requires busqueda != "" && PasaTipoYFct(d, tipoFiltro, fctFiltro) ==> d.nombre.Some?
  {
    if !PasaTipoYFct(d, tipoFiltro, fctFiltro) then false
    else if busqueda != "" then
      Contains(ToLower(d.nombre.value), busqueda)
      || (d.descripcion.Some? && Contains(ToLower(d.descripcion.value), busqueda))
    else true
  }

  predicate NombresDocumentos(todos: seq<Documento>, busqueda: string, tipoFiltro: Option<TipoDocumento>, fctFiltro: FCT?)
    reads todos
  {
    forall i :: 0 <= i < |todos| && busqueda != "" && PasaTipoYFct(todos[i], tipoFiltro, fctFiltro) ==> todos[i].nombre.Some?
  }

  /** The filter over the list, in list order. */
  function FiltrarDocumentos(todos: seq<Documento>, busqueda: string, tipoFiltro: Option<TipoDocumento>, fctFiltro: FCT?)
    : (r: seq<Documento>)
    reads todos
    requires NombresDocumentos(todos, busqueda, tipoFiltro, fctFiltro)
    ensures forall i :: 0 <= i < |r| ==> r[i] in todos && PasaFiltroDocumento(r[i], busqueda, tipoFiltro, fctFiltro)
    ensures forall i :: 0 <= i < |todos| && PasaFiltroDocumento(todos[i], busqueda, tipoFiltro, fctFiltro) ==>
              todos[i] in r
    ensures EsSubsecuencia(r, todos)
  {
    if todos == [] then []
    else
      assert todos == [todos[0]] + todos[1..];
      assert NombresDocumentos(todos[1..], busqueda, tipoFiltro, fctFiltro) by {
        forall i | 0 <= i < |todos[1..]| ensures todos[1..][i] == todos[i + 1] { }
      }
      var resto := FiltrarDocumentos(todos[1..], busqueda, tipoFiltro, fctFiltro);
      if PasaFiltroDocumento(todos[0], busqueda, tipoFiltro, fctFiltro) then
        assert ([todos[0]] + resto)[1..] == resto;
        [todos[0]] + resto
      else resto
  }

  /** aplicarFiltros: the search box is lower-cased and then trimmed before filtering. */
  function AplicarFiltrosDocumentos(todos: seq<Documento>, texto: string, tipoFiltro: Option<TipoDocumento>, fctFiltro: FCT?)
    : (r: seq<Documento>)
    reads todos
    requires NombresDocumentos(todos, Trim(ToLower(texto)), tipoFiltro, fctFiltro)
    ensures forall i :: 0 <= i < |r| ==> r[i] in todos && PasaFiltroDocumento(r[i], Trim(ToLower(texto)), tipoFiltro, fctFiltro)
    ensures forall i :: 0 <= i < |todos| && PasaFiltroDocumento(todos[i], Trim(ToLower(texto)), tipoFiltro, fctFiltro) ==>
              todos[i] in r
    ensures EsSubsecuencia(r, todos)
  {
    FiltrarDocumentos(todos, Trim(ToLower(texto)), tipoFiltro, fctFiltro)
  }

  /** Filtering by a placement alone lists exactly the documents that point to it. */
  lemma FiltroPorFct(todos: seq<Documento>, f: FCT)
    ensures NombresDocumentos(todos, "", None, f)
    ensures forall i :: 0 <= i < |todos| ==> (todos[i] in FiltrarDocumentos(todos, "", None, f) <==> todos[i].fct == f)
  {
    var r := FiltrarDocumentos(todos, "", None, f);
    forall i | 0 <= i < |todos| && todos[i] in r ensures todos[i].fct == f {
      var k :| 0 <= k < |r| && r[k] == todos[i];
    }
  }

  // ---------------------------------------------------------------- upload

  predicate EsActiva(f: FCT)
    reads f
  {
    f.estado == Some(ACTIVA)
  }

  /** findActivas (findByEstado(ACTIVA)): the placements the FCT combo offers, in stored order. */
  function FctsSeleccionables(fcts: seq<FCT>): (r: seq<FCT>)
    reads fcts
    ensures forall i :: 0 <= i < |r| ==> r[i] in fcts && EsActiva(r[i])
    ensures forall i :: 0 <= i < |fcts| && EsActiva(fcts[i]) ==> fcts[i] in r
    ensures EsSubsecuencia(r, fcts)
  {
    if fcts == [] then []
    else
      var resto := FctsSeleccionables(fcts[1..]);
      assert fcts == [fcts[0]] + fcts[1..];
      if EsActiva(fcts[0]) then
        assert ([fcts[0]] + resto)[1..] == resto;
        [fcts[0]] + resto
      else resto
  }

  /** The file chosen in the FileChooser: its name, absolute path and length in bytes. */
  datatype Archivo = Archivo(nombre: string, rutaAbsoluta: string, longitud: nat)

  /**
   * The checks of the upload dialog, in order: a file, a placement, a type and
   * a user in session.
   */
  function ValidarSubida(archivo: Option<Archivo>, fct: FCT?, tipo: Option<TipoDocumento>, autor: Usuario?)
    : (r: Option<Excepcion>)
    ensures r.None? <==> archivo.Some? && fct != null && tipo.Some? && autor != null
    ensures archivo.None? ==> r == Some(ValidacionCampo("archivo", "es obligatorio"))
    ensures archivo.Some? && fct == null ==> r == Some(ValidacionCampo("FCT", "es obligatoria"))
    ensures archivo.Some? && fct != null && tipo.None? ==> r == Some(ValidacionCampo("tipo", "es obligatorio"))
    ensures archivo.Some? && fct != null && tipo.Some? && autor == null
      ==> r == Some(ValidacionCampo("sesión", "No hay usuario activo"))
    ensures r.Some? ==> r.value.Validacion? && r.value.CodigoError() == CodigoValidacion
  {
    if archivo.None? then Some(ValidacionCampo("archivo", "es obligatorio"))
    else if fct == null then Some(ValidacionCampo("FCT", "es obligatoria"))
    else if tipo.None? then Some(ValidacionCampo("tipo", "es obligatorio"))
    else if autor == null then Some(ValidacionCampo("sesión", "No hay usuario activo"))
    else None
  }

  /**
   * The result converter and the save that follows: a failed check creates
   * nothing. Otherwise a new document comes from the file's name and path,
   * the type, the placement and the session's user, with the file's length
   * and the trimmed description, and is appended to the stored documents.
   * The placement's own document list is not updated.
   */
  method SubirDocumento(documentos: seq<Documento>, sesion: UsuarioService, archivo: Option<Archivo>, fct: FCT?,
                        tipo: Option<TipoDocumento>, descripcion: string, ahora: Instante, prefijoUnico: string)
    returns (r: Result<Documento, Excepcion>, nuevo: seq<Documento>)
    ensures r.Err? <==> ValidarSubida(archivo, fct, tipo, sesion.GetUsuarioActual()).Some?
    ensures r.Err? ==> r.error == ValidarSubida(archivo, fct, tipo, sesion.GetUsuarioActual()).value && nuevo == documentos
    ensures r.Ok? ==> fresh(r.value) && nuevo == documentos + [r.value]
    ensures r.Ok? ==>
      r.value.nombre == Some(archivo.value.nombre) && r.value.ruta == Some(archivo.value.rutaAbsoluta)
      && r.value.tipo == tipo && r.value.fct == fct && r.value.autor == sesion.GetUsuarioActual()
      && r.value.tamano == Some(archivo.value.longitud) && r.value.descripcion == Some(Trim(descripcion))
      && r.value.fechaSubida == Some(ahora)
      && r.value.nombreAlmacenado == Some(NombreAlmacenado(prefijoUnico, archivo.value.nombre))
  {
    var autor := sesion.GetUsuarioActual();
    var error := ValidarSubida(archivo, fct, tipo, autor);
    if error.Some? {
      return Err(error.value), documentos;
    }
    var doc := new Documento(archivo.value.nombre, Some(archivo.value.rutaAbsoluta), tipo, fct, autor, ahora, prefijoUnico);
    doc.SetTamano(Some(archivo.value.longitud));
    doc.SetDescripcion(Some(Trim(descripcion)));
    r, nuevo := Ok(doc), documentos + [doc];
  }

  /** After a logout, every upload is refused for the session and creates nothing. */
  method SubirTrasLogout(documentos: seq<Documento>, sesion: UsuarioService, archivo: Archivo, fct: FCT,
                         tipo: TipoDocumento, ahora: Instante, prefijoUnico: string)
    returns (r: Result<Documento, Excepcion>, nuevo: seq<Documento>)
    modifies sesion`usuarioActual
    ensures r == Err(ValidacionCampo("sesión", "No hay usuario activo")) && nuevo == documentos
  {
    sesion.Logout();
    r, nuevo := SubirDocumento(documentos, sesion, Some(archivo), fct, Some(tipo), "", ahora, prefijoUnico);
  }
}
