/**
 * The rule blocks of AsignarFCTController: the table filter, the buttons a
 * selection enables, the assignment dialog (validation, creation and editing
 * of a placement) and the cancellation with its note. The stored placements
 * (FCTService.findAll) are a sequence of FCT objects.
 */
module AsignarFct {
  import opened Base
  import opened Texto
  import opened Fechas
  import opened Valores
  import opened Excepciones
  import opened Modelo

  // ---------------------------------------------------------------- filter

  /** The state and academic-year filters; an unset filter lets everything through. */
  predicate PasaEstadoYCurso(f: FCT, estadoFiltro: Option<EstadoFCT>, cursoFiltro: CursoAcademico?)
    reads f
  {
    (estadoFiltro.None? || f.estado == estadoFiltro) && (cursoFiltro == null || f.cursoAcademico == cursoFiltro)
  }

  /** The lower-cased full name of the student, or "" without one. */
  function NombreEstudiante(f: FCT): string
    reads f, f.estudiante
  {
    if f.estudiante != null then ToLower(f.estudiante.GetNombreCompleto()) else ""
  }

  /** The lower-cased company name, or "" without a company; `getNombre().toLowerCase()` needs the name. */
  function NombreEmpresa(f: FCT): string
    reads f, f.empresa
    requires f.empresa != null ==> f.empresa.nombre.Some?
  {
    if f.empresa != null then ToLower(f.empresa.nombre.value) else ""
  }

  /** The name of the company is read for every placement the first two filters let through, when the search is not empty. */
  predicate NombresLegibles(todas: seq<FCT>, busqueda: string, estadoFiltro: Option<EstadoFCT>, cursoFiltro: CursoAcademico?)
    reads todas, set f | f in todas :: f.empresa
  {
    forall i :: 0 <= i < |todas| && busqueda != "" && PasaEstadoYCurso(todas[i], estadoFiltro, cursoFiltro)
      ==> todas[i].empresa == null || todas[i].empresa.nombre.Some?
  }

  /** The stream filter of aplicarFiltros for one placement, with the search already lower-cased and trimmed. */
  predicate PasaFiltro(f: FCT, busqueda: string, estadoFiltro: Option<EstadoFCT>, cursoFiltro: CursoAcademico?)
    reads f, f.estudiante, f.empresa
    requires busqueda != "" && PasaEstadoYCurso(f, estadoFiltro, cursoFiltro) && f.empresa != null ==> f.empresa.nombre.Some?
  {
    if !PasaEstadoYCurso(f, estadoFiltro, cursoFiltro) then false
    else if busqueda != "" then
      Contains(NombreEstudiante(f), busqueda) || Contains(NombreEmpresa(f), busqueda)
    else true
  }

  /** The filter over the list, in list order. */
  function Filtrar(todas: seq<FCT>, busqueda: string, estadoFiltro: Option<EstadoFCT>, cursoFiltro: CursoAcademico?)
    : (r: seq<FCT>)
    reads todas, set f | f in todas :: f.estudiante, set f | f in todas :: f.empresa
    requires NombresLegibles(todas, busqueda, estadoFiltro, cursoFiltro)
    ensures forall i :: 0 <= i < |r| ==> r[i] in todas && PasaFiltro(r[i], busqueda, estadoFiltro, cursoFiltro)
    ensures forall i :: 0 <= i < |todas| && PasaFiltro(todas[i], busqueda, estadoFiltro, cursoFiltro) ==> todas[i] in r
    ensures EsSubsecuencia(r, todas)
  {
    if todas == [] then []
    else
      assert todas == [todas[0]] + todas[1..];
      assert NombresLegibles(todas[1..], busqueda, estadoFiltro, cursoFiltro) by {
        forall i | 0 <= i < |todas[1..]| ensures todas[1..][i] == todas[i + 1] { }
      }
      var resto := Filtrar(todas[1..], busqueda, estadoFiltro, cursoFiltro);
      if PasaFiltro(todas[0], busqueda, estadoFiltro, cursoFiltro) then
        assert ([todas[0]] + resto)[1..] == resto;
        [todas[0]] + resto
      else resto
  }

  /** aplicarFiltros: the search box is lower-cased and then trimmed before filtering. */
  function AplicarFiltros(todas: seq<FCT>, texto: string, estadoFiltro: Option<EstadoFCT>, cursoFiltro: CursoAcademico?)
    : (r: seq<FCT>)
    reads todas, set f | f in todas :: f.estudiante, set f | f in todas :: f.empresa
    requires NombresLegibles(todas, Trim(ToLower(texto)), estadoFiltro, cursoFiltro)
    ensures forall i :: 0 <= i < |r| ==> r[i] in todas && PasaFiltro(r[i], Trim(ToLower(texto)), estadoFiltro, cursoFiltro)
    ensures forall i :: 0 <= i < |todas| && PasaFiltro(todas[i], Trim(ToLower(texto)), estadoFiltro, cursoFiltro) ==>
              todas[i] in r
    ensures EsSubsecuencia(r, todas)
  {
    Filtrar(todas, Trim(ToLower(texto)), estadoFiltro, cursoFiltro)
  }

  /** With no state, no year and a blank search, the table shows every stored placement in order. */
  lemma {:induction false} SinFiltrosMuestraTodas(todas: seq<FCT>, busqueda: string)
    requires busqueda == ""
    ensures NombresLegibles(todas, busqueda, None, null)
    ensures Filtrar(todas, busqueda, None, null) == todas
  {
    if todas != [] {
      SinFiltrosMuestraTodas(todas[1..], busqueda);
      assert todas == [todas[0]] + todas[1..];
    }
  }

  /** A search typed in capitals with surrounding spaces finds what its trimmed lower-case form finds. */
  lemma BusquedaSinMayusculasNiEspacios(todas: seq<FCT>, texto: string, estadoFiltro: Option<EstadoFCT>,
                                         cursoFiltro: CursoAcademico?)
    requires NombresLegibles(todas, Trim(ToLower(texto)), estadoFiltro, cursoFiltro)
    ensures Trim(ToLower(Trim(ToLower(texto)))) == Trim(ToLower(texto))
    ensures AplicarFiltros(todas, Trim(ToLower(texto)), estadoFiltro, cursoFiltro)
      == AplicarFiltros(todas, texto, estadoFiltro, cursoFiltro)
  {
    var b := Trim(ToLower(texto));
    ToLowerTrim(ToLower(texto));
    ToLowerIdempotent(texto);
    TrimIdempotent(ToLower(texto));
  }

  // ---------------------------------------------------------------- buttons

  /** Which of the four buttons a selection enables. */
  datatype Botones = Botones(editar: bool, verDetalles: bool, finalizar: bool, cancelar: bool)

  /** Editing and details need a selection; finishing and cancelling need an ACTIVA one. */
  function EstadoBotones(sel: FCT?): (b: Botones)
    reads sel
    ensures b.editar == b.verDetalles == (sel != null)
    ensures b.finalizar == b.cancelar
    ensures b.finalizar <==> sel != null && sel.estado == Some(ACTIVA)
    ensures b.finalizar ==> b.editar
  {
    var haySeleccion := sel != null;
    var esActiva := haySeleccion && sel.estado == Some(ACTIVA);
    Botones(haySeleccion, haySeleccion, esActiva, esActiva)
  }

  const AvisoNoEditable := "Solo se pueden editar asignaciones en estado ACTIVA."

  /** handleEditar: a selection that is not ACTIVA only gets a warning and no dialog. */
  function AvisoEdicion(f: FCT): (r: Option<string>)
    reads f
    ensures r.None? <==> f.estado == Some(ACTIVA)
    ensures r.Some? ==> r.value == AvisoNoEditable
  {
    if f.estado != Some(ACTIVA) then Some(AvisoNoEditable) else None
  }

  // ---------------------------------------------------------------- dialog

  /**
   * What the dialog holds when Guardar is pressed: the four combo boxes, the
   * hours spinner (0 to 500; only enabled when editing) and the notes area.
   * The notes are taken as a text; the one case where the area's text is
   * null, an edited placement without notes, is not modelled.
   */
  datatype Formulario = Formulario(estudiante: Estudiante?, empresa: Empresa?, tutor: TutorEmpresa?,
                                   periodo: Periodo?, horas: int, observaciones: string)

  /** existsByEstudianteAndPeriodo: some stored placement has that student and period, in any state. */
  predicate ExisteFct(almacen: seq<FCT>, e: Estudiante?, p: Periodo?)
    reads almacen
  {
    exists i :: 0 <= i < |almacen| && almacen[i].estudiante == e && almacen[i].periodo == p
  }

  /** The unique constraint on (estudiante_id, periodo_id), and no placement stored twice. */
  predicate FctsUnicas(almacen: seq<FCT>)
    reads almacen
  {
    forall i, j :: 0 <= i < j < |almacen| ==>
      almacen[i] != almacen[j]
      && !(almacen[i].estudiante == almacen[j].estudiante && almacen[i].periodo == almacen[j].periodo)
  }

  const MensajeAsignada := "El estudiante ya tiene una FCT asignada en este periodo"

  /** The form has all four choices. */
  predicate Completo(form: Formulario)
  {
    form.estudiante != null && form.empresa != null && form.tutor != null && form.periodo != null
  }

  /**
   * The checks of the result converter: the first missing choice in the order
   * student, company, tutor, period; then, for a new placement only, an
   * existing placement for that student and period, whatever its state.
   * Nothing checks that the tutor works for the chosen company.
   */
  function ValidarAsignacion(almacen: seq<FCT>, form: Formulario, esNueva: bool): (r: Option<Excepcion>)
    reads almacen
    ensures r.None? <==> Completo(form) && !(esNueva && ExisteFct(almacen, form.estudiante, form.periodo))
    ensures form.estudiante == null ==> r == Some(ValidacionCampo("estudiante", "es obligatorio"))
    ensures form.estudiante != null && form.empresa == null ==> r == Some(ValidacionCampo("empresa", "es obligatoria"))
    ensures form.estudiante != null && form.empresa != null && form.tutor == null
      ==> r == Some(ValidacionCampo("tutor", "es obligatorio"))
    ensures form.estudiante != null && form.empresa != null && form.tutor != null && form.periodo == null
      ==> r == Some(ValidacionCampo("periodo", "es obligatorio"))
    ensures Completo(form) && esNueva && ExisteFct(almacen, form.estudiante, form.periodo)
      ==> r == Some(OperacionMensaje(MensajeAsignada))
    ensures r.Some? ==> r.value.Validacion? || r.value.OperacionNoPermitida?
  {
    if form.estudiante == null then Some(ValidacionCampo("estudiante", "es obligatorio"))
    else if form.empresa == null then Some(ValidacionCampo("empresa", "es obligatoria"))
    else if form.tutor == null then Some(ValidacionCampo("tutor", "es obligatorio"))
    else if form.periodo == null then Some(ValidacionCampo("periodo", "es obligatorio"))
    else if esNueva && ExisteFct(almacen, form.estudiante, form.periodo) then Some(OperacionMensaje(MensajeAsignada))
    else None
  }

  /**
   * A cancelled placement still blocks a new one for the same student and
   * period, although the student's own tieneFctEnPeriodo no longer counts it.
   */
  lemma CanceladaBloqueaNueva(almacen: seq<FCT>, f: FCT, form: Formulario)
    requires f in almacen && f.estado == Some(CANCELADA)
    requires Completo(form) && f.estudiante == form.estudiante && f.periodo == form.periodo
    requires form.estudiante.fcts == [f]
    ensures ValidarAsignacion(almacen, form, true) == Some(OperacionMensaje(MensajeAsignada))
    ensures PeriodosHastaCoincidencia(form.estudiante.fcts, form.periodo)
    ensures !form.estudiante.TieneFctEnPeriodo(form.periodo)
  {
    var i :| 0 <= i < |almacen| && almacen[i] == f;
    assert ExisteFct(almacen, form.estudiante, form.periodo);
  }

  /**
   * The result converter and the save that follows: on a failed check nothing
   * changes and the exception is the answer. A new placement is built from
   * the student, company, tutor and period, takes the trimmed notes and is
   * appended to the store. An edited one (the selection, whose student and
   * period the dialog shows fixed) gets the company, tutor, hours and trimmed
   * notes and stays where it is. Either way the unique constraint is kept.
   */
  method GuardarAsignacion(almacen: seq<FCT>, fct: FCT?, form: Formulario, ahora: Instante)
    returns (r: Result<FCT, Excepcion>, nuevo: seq<FCT>)
    requires 0 <= form.horas <= 500
    requires fct != null ==> fct in almacen && form.estudiante == fct.estudiante && form.periodo == fct.periodo
    modifies if fct == null then {} else {fct}
    ensures r.Err? <==> old(ValidarAsignacion(almacen, form, fct == null)).Some?
    ensures r.Err? ==> r.error == old(ValidarAsignacion(almacen, form, fct == null)).value && nuevo == almacen
    ensures r.Err? && fct != null ==> unchanged(fct)
    ensures r.Ok? && fct == null ==> fresh(r.value) && nuevo == almacen + [r.value]
    ensures r.Ok? && fct == null ==>
      r.value.estudiante == form.estudiante && r.value.empresa == form.empresa && r.value.tutorEmpresa == form.tutor
      && r.value.periodo == form.periodo && r.value.estado == Some(ACTIVA) && r.value.horasRealizadas == Some(0)
      && r.value.observaciones == Some(Trim(form.observaciones))
    ensures r.Ok? && fct == null ==>
      r.value.cursoAcademico == form.periodo.cursoAcademico && r.value.fechaInicio == form.periodo.fechaInicio
      && r.value.fechaFin == form.periodo.fechaFin && r.value.horasTotales == form.periodo.horasTotales
      && r.value.fechaCreacion == Some(ahora) && r.value.fechaModificacion == Some(ahora)
      && r.value.id.None? && r.value.documentos == []
    ensures r.Ok? && fct != null ==> r.value == fct && nuevo == almacen
    ensures r.Ok? && fct != null ==>
      fct.empresa == form.empresa && fct.tutorEmpresa == form.tutor && fct.horasRealizadas == Some(form.horas)
      && fct.observaciones == Some(Trim(form.observaciones))
    ensures r.Ok? && fct != null ==>
      unchanged(fct`id, fct`estado, fct`fechaInicio, fct`fechaFin, fct`horasTotales, fct`fechaCreacion,
                fct`fechaModificacion, fct`estudiante, fct`periodo, fct`cursoAcademico, fct`documentos)
    ensures old(FctsUnicas(almacen)) ==> FctsUnicas(nuevo)
  {
    var error := ValidarAsignacion(almacen, form, fct == null);
    if error.Some? {
      return Err(error.value), almacen;
    }
    var resultado: FCT;
    if fct == null {
      resultado := new FCT.Asignar(form.estudiante, form.empresa, form.tutor, form.periodo, ahora);
    } else {
      resultado := fct;
      resultado.SetEmpresa(form.empresa);
      resultado.SetTutorEmpresa(form.tutor);
      resultado.SetHorasRealizadas(Some(form.horas));
    }
    resultado.SetObservaciones(Some(Trim(form.observaciones)));
    if fct == null {
      nuevo := almacen + [resultado];
      if FctsUnicas(almacen) { UnicasTrasAnadir(almacen, resultado); }
    } else {
      nuevo := almacen;
    }
    r := Ok(resultado);
  }

  /** Appending a placement that is new and whose pair is free keeps the constraint. */
  lemma UnicasTrasAnadir(almacen: seq<FCT>, f: FCT)
    requires FctsUnicas(almacen) && f !in almacen && !ExisteFct(almacen, f.estudiante, f.periodo)
    ensures FctsUnicas(almacen + [f])
  {
    var s := almacen + [f];
    forall i, j | 0 <= i < j < |s|
      ensures s[i] != s[j] && !(s[i].estudiante == s[j].estudiante && s[i].periodo == s[j].periodo)
    {
      if j == |almacen| {
        assert s[i] == almacen[i];
      } else {
        assert s[i] == almacen[i] && s[j] == almacen[j];
      }
    }
  }

  /**
   * handleEditar followed by the dialog: a placement that is not ACTIVA gets
   * the warning and is left alone; an ACTIVA one goes through the dialog.
   */
  method HandleEditar(almacen: seq<FCT>, f: FCT, form: Formulario, ahora: Instante)
    returns (aviso: Option<string>, r: Option<Result<FCT, Excepcion>>, nuevo: seq<FCT>)
    requires 0 <= form.horas <= 500
    requires f in almacen && form.estudiante == f.estudiante && form.periodo == f.periodo
    modifies f
    ensures aviso.Some? <==> old(f.estado) != Some(ACTIVA)
    ensures aviso.Some? ==> aviso.value == AvisoNoEditable && r.None? && nuevo == almacen && unchanged(f)
    ensures aviso.None? ==> r.Some? && nuevo == almacen && f.estado == Some(ACTIVA)
    ensures aviso.None? ==> (r.value.Err? <==> old(ValidarAsignacion(almacen, form, false)).Some?)
    ensures aviso.None? && r.value.Err? ==>
      r.value.error == old(ValidarAsignacion(almacen, form, false)).value && unchanged(f)
    ensures aviso.None? && r.value.Ok? ==>
      r.value.value == f && f.empresa == form.empresa && f.tutorEmpresa == form.tutor
      && f.horasRealizadas == Some(form.horas) && f.observaciones == Some(Trim(form.observaciones))
    ensures aviso.None? && r.value.Ok? ==>
      unchanged(f`id, f`estado, f`fechaInicio, f`fechaFin, f`horasTotales, f`fechaCreacion,
                f`fechaModificacion, f`estudiante, f`periodo, f`cursoAcademico, f`documentos)
    ensures old(FctsUnicas(almacen)) ==> FctsUnicas(nuevo)
  {
    aviso := AvisoEdicion(f);
    if aviso.Some? {
      return aviso, None, almacen;
    }
    var res;
    res, nuevo := GuardarAsignacion(almacen, f, form, ahora);
    r := Some(res);
  }

  // ---------------------------------------------------------------- cancellation

  /**
   * handleCancelar once a reason was typed: a reason that is blank once
   * trimmed changes nothing; otherwise the placement is cancelled and the
   * note "CANCELACIÓN: <motivo>" (the reason as typed) goes after the old
   * notes and a line break, or alone when there were none.
   */
  method HandleCancelar(f: FCT, motivo: string, ahora: Instante)
    modifies f`estado, f`fechaModificacion, f`observaciones
    ensures IsBlank(motivo) ==> unchanged(f)
    ensures !IsBlank(motivo) ==>
      f.estado == Some(CANCELADA) && f.fechaModificacion == Some(ahora)
      && f.observaciones == Some(NotaCancelacion(old(f.observaciones), motivo))
  {
    TrimEmptyIffBlank(motivo);
    if Trim(motivo) != "" {
      f.Cancelar(ahora);
      f.SetObservaciones(Some(NotaCancelacion(f.observaciones, motivo)));
    }
  }
}
