/**
 * The JPA entities of the placement application as classes whose fields the
 * application updates in place. Nullable Java fields are `Option` values,
 * references to other entities are nullable references, and the lists an
 * entity owns are sequences the methods reassign. Every entity has identity
 * semantics: none of them overrides equals, so two entities are equal only
 * when they are the same object.
 */
module Modelo {
  import opened Base
  import opened Texto
  import opened Fechas
  import opened Valores

  // ================================================================ Usuario

  /** An account of the application; the author of uploaded documents. */
  class Usuario {
    var id: Option<int>
    var nombre: Option<string>
    var apellidos: Option<string>
    var email: Option<string>
    var password: Option<string>
    var rol: Option<Rol>
    var activo: Option<bool>
    var fechaCreacion: Option<Instante>
    var ultimoAcceso: Option<Instante>

    /** Usuario(nombre, apellidos, email, password, rol): active, created now, never logged in. */
    constructor (nombre: Option<string>, apellidos: Option<string>, email: Option<string>,
                 password: Option<string>, rol: Option<Rol>, ahora: Instante)
      ensures this.nombre == nombre && this.apellidos == apellidos && this.email == email
      ensures this.password == password && this.rol == rol
      ensures id.None? && activo == Some(true) && fechaCreacion == Some(ahora) && ultimoAcceso.None?
    {
      id := None;
      this.nombre := nombre;
      this.apellidos := apellidos;
      this.email := email;
      this.password := password;
      this.rol := rol;
      activo := Some(true);
      fechaCreacion := Some(ahora);
      ultimoAcceso := None;
    }
  }

  // ================================================================ CursoAcademico

  /** An academic year such as "2025-2026". */
  class CursoAcademico {
    var id: Option<int>
    var nombre: Option<string>
    var descripcion: Option<string>
    var activo: Option<bool>
    var periodos: seq<Periodo>
    var fcts: seq<FCT>

    /** CursoAcademico(nombre, descripcion): inactive and without periods. */
    constructor (nombre: Option<string>, descripcion: Option<string>)
      ensures this.nombre == nombre && this.descripcion == descripcion
      ensures id.None? && activo == Some(false) && periodos == [] && fcts == []
    {
      id := None;
      this.nombre := nombre;
      this.descripcion := descripcion;
      activo := Some(false);
      periodos := [];
      fcts := [];
    }

    method SetActivo(activo: Option<bool>)
      modifies this`activo
      ensures this.activo == activo
    {
      this.activo := activo;
    }

    /** addPeriodo: the period is appended and now belongs to this year. */
    method AddPeriodo(p: Periodo)
      modifies this`periodos, p`cursoAcademico
      ensures periodos == old(periodos) + [p] && |periodos| == |old(periodos)| + 1
      ensures p.cursoAcademico == this
    {
      periodos := periodos + [p];
      p.cursoAcademico := this;
    }

    /** toString: the year's name, itself possibly null. */
    function ToString(): (r: Option<string>)
      reads this
      ensures r == nombre
    {
      nombre
    }
  }

  /** A nullable VARCHAR column of the given length: null, or a text that fits. */
  predicate CabeEn(campo: Option<string>, longitud: nat)
  {
    campo.None? || |campo.value| <= longitud
  }

  /**
   * The column constraints of cursos_academicos over a set of stored years:
   * every name is present, at most nine characters long, and no two years
   * share it; a description fits in 500 characters; the flag is not null.
   */
  predicate CursosValidos(cursos: seq<CursoAcademico>)
    reads cursos
  {
    (forall i :: 0 <= i < |cursos| ==>
       cursos[i].nombre.Some? && |cursos[i].nombre.value| <= 9
       && CabeEn(cursos[i].descripcion, 500) && cursos[i].activo.Some?)
    && (forall i, j :: 0 <= i < j < |cursos| ==> cursos[i] != cursos[j] && cursos[i].nombre != cursos[j].nombre)
  }

  // ================================================================ Periodo

  /** A placement period of an academic year, the record an FCT copies its dates and hours from. */
  class Periodo {
    var id: Option<int>
    var nombre: Option<string>
    var curso: Option<int>
    var tipo: Option<TipoPeriodo>
    var fechaInicio: Option<Fecha>
    var fechaFin: Option<Fecha>
    var horasTotales: Option<int>
    var cursoAcademico: CursoAcademico?
    var fcts: seq<FCT>

    /**
     * Periodo(nombre, curso, tipo, fechaInicio, fechaFin): no hours and no
     * academic year yet; nothing relates the two dates.
     */
    constructor (nombre: Option<string>, curso: Option<int>, tipo: Option<TipoPeriodo>,
                 fechaInicio: Option<Fecha>, fechaFin: Option<Fecha>)
      ensures this.nombre == nombre && this.curso == curso && this.tipo == tipo
      ensures this.fechaInicio == fechaInicio && this.fechaFin == fechaFin
      ensures id.None? && horasTotales.None? && cursoAcademico == null && fcts == []
    {
      id := None;
      this.nombre := nombre;
      this.curso := curso;
      this.tipo := tipo;
      this.fechaInicio := fechaInicio;
      this.fechaFin := fechaFin;
      horasTotales := None;
      cursoAcademico := null;
      fcts := [];
    }

    method SetFechaInicio(f: Option<Fecha>)
      modifies this`fechaInicio
      ensures fechaInicio == f
    {
      fechaInicio := f;
    }

    method SetFechaFin(f: Option<Fecha>)
      modifies this`fechaFin
      ensures fechaFin == f
    {
      fechaFin := f;
    }

    method SetHorasTotales(h: Option<int>)
      modifies this`horasTotales
      ensures horasTotales == h
    {
      horasTotales := h;
    }

    /**
     * getDescripcionCompleta; calling tipo.name() needs a kind. The text begins
     * with the course number and "º ", ends with the closing parenthesis, and
     * reads back as the course, the kind and the texts of both dates.
     */
    function GetDescripcionCompleta(): (r: string)
      reads this
      requires tipo.Some?
      ensures |r| > |EnteroTexto(curso)| + 2
      ensures r[..|EnteroTexto(curso)| + 2] == EnteroTexto(curso) + "º "
      ensures r[|r| - 1] == ')'
      ensures LeerDescripcion(r) == Some((EnteroTexto(curso), tipo.value, FechaTexto(fechaInicio), FechaTexto(fechaFin)))
    {
      DescripcionCompletaRoundTrip(curso, tipo.value, fechaInicio, fechaFin);
      DescripcionCompleta(curso, tipo.value, fechaInicio, fechaFin)
    }

    /** toString: the period's name, " - " and its academic year's name; it needs the year. */
    function ToString(): (r: string)
      reads this, cursoAcademico
      requires cursoAcademico != null
      ensures |Str(nombre)| <= |r| && r[..|Str(nombre)|] == Str(nombre)
      ensures r[|Str(nombre)|..] == " - " + Str(cursoAcademico.nombre)
    {
      var r := Str(nombre) + " - " + Str(cursoAcademico.nombre);
      assert r == Str(nombre) + (" - " + Str(cursoAcademico.nombre));
      r
    }
  }

  // ================================================================ Empresa

  /** A company that hosts placements. */
  class Empresa {
    var id: Option<int>
    var nombre: Option<string>
    var nif: Option<string>
    var direccion: Option<string>
    var localidad: Option<string>
    var codigoPostal: Option<string>
    var provincia: Option<string>
    var telefono: Option<string>
    var email: Option<string>
    var personaContacto: Option<string>
    var sector: Option<string>
    var activa: Option<bool>
    var observaciones: Option<string>
    var tutores: seq<TutorEmpresa>
    var fcts: seq<FCT>

    /** Empresa(): an active company with every other field null. */
    constructor ()
      ensures id.None? && nombre.None? && nif.None? && direccion.None? && localidad.None?
      ensures codigoPostal.None? && provincia.None? && telefono.None? && email.None?
      ensures personaContacto.None? && sector.None? && observaciones.None?
      ensures activa == Some(true) && tutores == [] && fcts == []
    {
      id, nombre, nif, direccion, localidad := None, None, None, None, None;
      codigoPostal, provincia, telefono, email := None, None, None, None;
      personaContacto, sector, observaciones := None, None, None;
      activa := Some(true);
      tutores, fcts := [], [];
    }

    /** addTutor: the tutor is appended and now belongs to this company. */
    method AddTutor(t: TutorEmpresa)
      modifies this`tutores, t`empresa
      ensures tutores == old(tutores) + [t]
      ensures t.empresa == this
    {
      tutores := tutores + [t];
      t.empresa := this;
    }

    /** getDireccionCompleta: the address assembled piece by piece in a buffer. */
    method GetDireccionCompleta() returns (s: string)
      ensures s == DireccionCompleta(direccion, codigoPostal, localidad, provincia)
    {
      s := "";
      s := AnadirSiPresente(s, "", direccion, "");
      assert s == Tramo("", direccion, "");
      ghost var t := s;
      s := AnadirSiPresente(s, ", ", codigoPostal, "");
      assert s == t + Tramo(", ", codigoPostal, "");
      t := s;
      s := AnadirSiPresente(s, " ", localidad, "");
      assert s == t + Tramo(" ", localidad, "");
      t := s;
      s := AnadirSiPresente(s, " (", provincia, ")");
      assert s == t + Tramo(" (", provincia, ")");
    }

    /** toString: the name followed by the NIF in parentheses. */
    function ToString(): (r: string)
      reads this
      ensures |Str(nombre)| <= |r| && r[..|Str(nombre)|] == Str(nombre)
      ensures r[|Str(nombre)|..] == " (" + Str(nif) + ")"
    {
      var r := Str(nombre) + " (" + Str(nif) + ")";
      assert r == Str(nombre) + (" (" + Str(nif) + ")");
      r
    }
  }

  /** One guarded step of a StringBuilder: append the field between its affixes when it is not null. */
  method AnadirSiPresente(s: string, prefijo: string, campo: Option<string>, sufijo: string) returns (t: string)
    ensures t == s + Tramo(prefijo, campo, sufijo)
  {
    t := s;
    if campo.Some? {
      t := t + prefijo + campo.value + sufijo;
    }
  }

  /**
   * The column constraints of one row of empresas: name and NIF present, the
   * flag not null, and every text within its column's length.
   */
  predicate EmpresaCabe(e: Empresa)
    reads e
  {
    e.nombre.Some? && |e.nombre.value| <= 200 && e.nif.Some? && |e.nif.value| <= 15 && e.activa.Some?
    && CabeEn(e.direccion, 300) && CabeEn(e.localidad, 100) && CabeEn(e.codigoPostal, 10)
    && CabeEn(e.provincia, 100) && CabeEn(e.telefono, 20) && CabeEn(e.email, 100)
    && CabeEn(e.personaContacto, 200) && CabeEn(e.sector, 500) && CabeEn(e.observaciones, 1000)
  }

  /**
   * The column constraints of empresas over the stored companies: every row
   * fits its columns, and no two share the NIF or, when present, the email.
   */
  predicate EmpresasValidas(empresas: seq<Empresa>)
    reads empresas
  {
    (forall i :: 0 <= i < |empresas| ==> EmpresaCabe(empresas[i]))
    && (forall i, j :: 0 <= i < j < |empresas| ==>
          empresas[i] != empresas[j] && empresas[i].nif != empresas[j].nif
          && (empresas[i].email.Some? ==> empresas[i].email != empresas[j].email))
  }

  // ================================================================ TutorEmpresa

  /** The person at the company who supervises a student. */
  class TutorEmpresa {
    var id: Option<int>
    var nombre: Option<string>
    var apellidos: Option<string>
    var dni: Option<string>
    var telefono: Option<string>
    var email: Option<string>
    var cargo: Option<string>
    var activo: Option<bool>
    var empresa: Empresa?
    var fcts: seq<FCT>

    /** TutorEmpresa(nombre, apellidos, empresa): an active tutor of that company. */
    constructor (nombre: Option<string>, apellidos: Option<string>, empresa: Empresa?)
      ensures this.nombre == nombre && this.apellidos == apellidos && this.empresa == empresa
      ensures id.None? && dni.None? && telefono.None? && email.None? && cargo.None?
      ensures activo == Some(true) && fcts == []
    {
      id, dni, telefono, email, cargo := None, None, None, None, None;
      this.nombre := nombre;
      this.apellidos := apellidos;
      this.empresa := empresa;
      activo := Some(true);
      fcts := [];
    }

    /** TutorEmpresa(nombre, apellidos, email, empresa): the same, with an email. */
    constructor ConEmail(nombre: Option<string>, apellidos: Option<string>, email: Option<string>, empresa: Empresa?)
      ensures this.nombre == nombre && this.apellidos == apellidos && this.email == email && this.empresa == empresa
      ensures id.None? && dni.None? && telefono.None? && cargo.None?
      ensures activo == Some(true) && fcts == []
    {
      id, dni, telefono, cargo := None, None, None, None;
      this.nombre := nombre;
      this.apellidos := apellidos;
      this.email := email;
      this.empresa := empresa;
      activo := Some(true);
      fcts := [];
    }

    function GetNombreCompleto(): string
      reads this
    {
      NombreCompleto(nombre, apellidos)
    }

    /** tieneFctsActivas: some placement of this tutor is ACTIVA. */
    function TieneFctsActivas(): (r: bool)
      reads this, fcts
      ensures r <==> exists i :: 0 <= i < |fcts| && fcts[i].estado == Some(ACTIVA)
      ensures fcts == [] ==> !r
    {
      PrimeraActiva(fcts) < |fcts|
    }

    /** toString: the full name, " - " and the company's name; it needs the company. */
    function ToString(): (r: string)
      reads this, empresa
      requires empresa != null
      ensures |GetNombreCompleto()| <= |r| && r[..|GetNombreCompleto()|] == GetNombreCompleto()
      ensures r[|GetNombreCompleto()|..] == " - " + Str(empresa.nombre)
    {
      var r := GetNombreCompleto() + " - " + Str(empresa.nombre);
      assert r == GetNombreCompleto() + (" - " + Str(empresa.nombre));
      r
    }
  }

  // ================================================================ Estudiante

  /** A student who takes placements. */
  class Estudiante {
    var id: Option<int>
    var nombre: Option<string>
    var apellidos: Option<string>
    var dni: Option<string>
    var email: Option<string>
    var ciclo: Option<string>
    var grupo: Option<string>
    var activo: Option<bool>
    var fcts: seq<FCT>

    /** Estudiante(nombre, apellidos, dni, ciclo, grupo): an active student without placements. */
    constructor (nombre: Option<string>, apellidos: Option<string>, dni: Option<string>,
                 ciclo: Option<string>, grupo: Option<string>)
      ensures this.nombre == nombre && this.apellidos == apellidos && this.dni == dni
      ensures this.ciclo == ciclo && this.grupo == grupo
      ensures id.None? && email.None? && activo == Some(true) && fcts == []
    {
      id, email := None, None;
      this.nombre := nombre;
      this.apellidos := apellidos;
      this.dni := dni;
      this.ciclo := ciclo;
      this.grupo := grupo;
      activo := Some(true);
      fcts := [];
    }

    method SetEmail(email: Option<string>)
      modifies this`email
      ensures this.email == email
    {
      this.email := email;
    }

    function GetNombreCompleto(): string
      reads this
    {
      NombreCompleto(nombre, apellidos)
    }

    /**
     * getFctActiva: the first placement in list order whose state is ACTIVA,
     * or null when there is none.
     */
    function GetFctActiva(): (r: FCT?)
      reads this, fcts
      ensures r == null <==> forall i :: 0 <= i < |fcts| ==> fcts[i].estado != Some(ACTIVA)
      ensures r != null ==> exists k :: 0 <= k < |fcts| && fcts[k] == r && r.estado == Some(ACTIVA)
                                      && forall i :: 0 <= i < k ==> fcts[i].estado != Some(ACTIVA)
      ensures fcts == [] ==> r == null
    {
      var k := PrimeraActiva(fcts);
      if k < |fcts| then fcts[k] else null
    }

    /**
     * tieneFctEnPeriodo: some placement is in period `p` and is not cancelled.
     * The periods are compared with equals on the placement's own period, so
     * the scan needs a period on every placement it reaches.
     */
    function TieneFctEnPeriodo(p: Periodo?): (r: bool)
      reads this, fcts
      requires PeriodosHastaCoincidencia(fcts, p)
      ensures r <==> exists i :: 0 <= i < |fcts| && fcts[i].periodo == p && fcts[i].estado != Some(CANCELADA)
      ensures fcts == [] ==> !r
    {
      AlgunaEnPeriodo(fcts, p)
    }

    /** toString: the full name and the group in parentheses. */
    function ToString(): (r: string)
      reads this
      ensures |GetNombreCompleto()| <= |r| && r[..|GetNombreCompleto()|] == GetNombreCompleto()
      ensures r[|GetNombreCompleto()|..] == " (" + Str(grupo) + ")"
    {
      var r := GetNombreCompleto() + " (" + Str(grupo) + ")";
      assert r == GetNombreCompleto() + (" (" + Str(grupo) + ")");
      r
    }
  }

  /** The position of the first ACTIVA placement in `s`, or |s| when there is none. */
  function PrimeraActiva(s: seq<FCT>): (k: nat)
    reads s
    ensures k <= |s|
    ensures forall i :: 0 <= i < k ==> s[i].estado != Some(ACTIVA)
    ensures k < |s| ==> s[k].estado == Some(ACTIVA)
  {
    if s == [] then 0
    else if s[0].estado == Some(ACTIVA) then 0
    else 1 + PrimeraActiva(s[1..])
  }

  /** A placement matches `p` for tieneFctEnPeriodo: same period and not cancelled. */
  predicate EnPeriodoNoCancelada(f: FCT, p: Periodo?)
    reads f
  {
    f.periodo == p && f.estado != Some(CANCELADA)
  }

  /**
   * `fct.getPeriodo().equals(p)` does not throw before anyMatch stops: every
   * placement up to the first match has a period.
   */
  predicate PeriodosHastaCoincidencia(s: seq<FCT>, p: Periodo?)
    reads s
  {
    s == [] || (s[0].periodo != null && (EnPeriodoNoCancelada(s[0], p) || PeriodosHastaCoincidencia(s[1..], p)))
  }

  /** The anyMatch of tieneFctEnPeriodo, scanning in list order. */
  function AlgunaEnPeriodo(s: seq<FCT>, p: Periodo?): (r: bool)
    reads s
    requires PeriodosHastaCoincidencia(s, p)
    ensures r <==> exists i :: 0 <= i < |s| && s[i].periodo == p && s[i].estado != Some(CANCELADA)
  {
    if s == [] then false
    else if EnPeriodoNoCancelada(s[0], p) then true
    else
      var r := AlgunaEnPeriodo(s[1..], p);
      assert forall i :: 1 <= i < |s| ==> s[i] == s[1..][i - 1];
      r
  }

  // ================================================================ Documento

  /** An uploaded file attached to a placement. */
  class Documento {
    var id: Option<int>
    var nombre: Option<string>
    var nombreAlmacenado: Option<string>
    var ruta: Option<string>
    var tipo: Option<TipoDocumento>
    var contentType: Option<string>
    var tamano: Option<int>
    var descripcion: Option<string>
    var fechaSubida: Option<Instante>
    var fct: FCT?
    var autor: Usuario?

    /**
     * Documento(nombre, ruta, tipo, fct, autor): uploaded now, stored under the
     * unique prefix (clock reading and random part, supplied by the caller)
     * followed by the original extension. The placement's own list is not
     * touched.
     */
    constructor (nombre: string, ruta: Option<string>, tipo: Option<TipoDocumento>, fct: FCT?, autor: Usuario?,
                 ahora: Instante, prefijoUnico: string)
      ensures this.nombre == Some(nombre) && this.ruta == ruta && this.tipo == tipo
      ensures this.fct == fct && this.autor == autor && fechaSubida == Some(ahora)
      ensures nombreAlmacenado == Some(NombreAlmacenado(prefijoUnico, nombre))
      ensures id.None? && contentType.None? && tamano.None? && descripcion.None?
    {
      id, contentType, tamano, descripcion := None, None, None, None;
      fechaSubida := Some(ahora);
      this.nombre := Some(nombre);
      nombreAlmacenado := Some(NombreAlmacenado(prefijoUnico, nombre));
      this.ruta := ruta;
      this.tipo := tipo;
      this.fct := fct;
      this.autor := autor;
    }

    method SetTamano(t: Option<int>)
      modifies this`tamano
      ensures tamano == t
    {
      tamano := t;
    }

    method SetDescripcion(d: Option<string>)
      modifies this`descripcion
      ensures descripcion == d
    {
      descripcion := d;
    }

    /** getExtension: the stored extension without its dot, upper-cased; it needs a name. */
    function GetExtension(): (r: string)
      reads this
      requires nombre.Some?
      ensures ExtensionAlmacenada(nombre.value) == "" ==> r == ""
      ensures ExtensionAlmacenada(nombre.value) != "" ==> r == ToUpper(ExtensionAlmacenada(nombre.value)[1..])
    {
      ExtensionComoAlmacenada(nombre.value);
      Extension(nombre.value)
    }

    /** getTamanoFormateado: the unit chosen for the size. */
    function GetTamanoFormateado(): (r: Tamano)
      reads this
      ensures tamano.None? ==> r == Bytes("0 B")
      ensures tamano.Some? && tamano.value < 1024 ==> r.Bytes?
      ensures tamano.Some? && 1024 <= tamano.value < 1024 * 1024 ==> r.Kilobytes?
      ensures tamano.Some? && tamano.value >= 1024 * 1024 ==> r.Megabytes?
    {
      TamanoFormateado(tamano)
    }
  }

  // ================================================================ FCT

  /** A placement: one student at one company, with one tutor, in one period. */
  class FCT {
    var id: Option<int>
    var estado: Option<EstadoFCT>
    var fechaInicio: Option<Fecha>
    var fechaFin: Option<Fecha>
    var horasRealizadas: Option<int>
    var horasTotales: Option<int>
    var observaciones: Option<string>
    var fechaCreacion: Option<Instante>
    var fechaModificacion: Option<Instante>
    var estudiante: Estudiante?
    var empresa: Empresa?
    var tutorEmpresa: TutorEmpresa?
    var periodo: Periodo?
    var cursoAcademico: CursoAcademico?
    var documentos: seq<Documento>

    /** FCT(): ACTIVA, no hours done, created and modified now, nothing related yet. */
    constructor (ahora: Instante)
      ensures estado == Some(ACTIVA) && horasRealizadas == Some(0)
      ensures fechaCreacion == Some(ahora) && fechaModificacion == Some(ahora)
      ensures id.None? && fechaInicio.None? && fechaFin.None? && horasTotales.None? && observaciones.None?
      ensures estudiante == null && empresa == null && tutorEmpresa == null
      ensures periodo == null && cursoAcademico == null && documentos == []
    {
      id, fechaInicio, fechaFin, horasTotales, observaciones := None, None, None, None, None;
      estado := Some(ACTIVA);
      horasRealizadas := Some(0);
      fechaCreacion, fechaModificacion := Some(ahora), Some(ahora);
      estudiante, empresa, tutorEmpresa, periodo, cursoAcademico := null, null, null, null, null;
      documentos := [];
    }

    /**
     * FCT(estudiante, empresa, tutorEmpresa, periodo): a new ACTIVA placement
     * that takes a copy of the period's academic year, dates and total hours.
     * Nothing checks that the tutor belongs to the company.
     */
    constructor Asignar(estudiante: Estudiante?, empresa: Empresa?, tutorEmpresa: TutorEmpresa?,
                        periodo: Periodo, ahora: Instante)
      ensures estado == Some(ACTIVA) && horasRealizadas == Some(0)
      ensures fechaCreacion == Some(ahora) && fechaModificacion == Some(ahora)
      ensures this.estudiante == estudiante && this.empresa == empresa && this.tutorEmpresa == tutorEmpresa
      ensures this.periodo == periodo && cursoAcademico == periodo.cursoAcademico
      ensures fechaInicio == periodo.fechaInicio && fechaFin == periodo.fechaFin
      ensures horasTotales == periodo.horasTotales
      ensures id.None? && observaciones.None? && documentos == []
    {
      id, observaciones := None, None;
      estado := Some(ACTIVA);
      horasRealizadas := Some(0);
      fechaCreacion, fechaModificacion := Some(ahora), Some(ahora);
      this.estudiante := estudiante;
      this.empresa := empresa;
      this.tutorEmpresa := tutorEmpresa;
      this.periodo := periodo;
      cursoAcademico := periodo.cursoAcademico;
      fechaInicio := periodo.fechaInicio;
      fechaFin := periodo.fechaFin;
      horasTotales := periodo.horasTotales;
      documentos := [];
    }

    /** setEstado: any state is accepted, and the modification time is refreshed. */
    method SetEstado(e: Option<EstadoFCT>, ahora: Instante)
      modifies this`estado, this`fechaModificacion
      ensures estado == e && fechaModificacion == Some(ahora)
    {
      estado := e;
      fechaModificacion := Some(ahora);
    }

    /** setHorasRealizadas: only the hours change; the modification time is not refreshed. */
    method SetHorasRealizadas(h: Option<int>)
      modifies this`horasRealizadas
      ensures horasRealizadas == h
    {
      horasRealizadas := h;
    }

    method SetObservaciones(o: Option<string>)
      modifies this`observaciones
      ensures observaciones == o
    {
      observaciones := o;
    }

    method SetEmpresa(e: Empresa?)
      modifies this`empresa
      ensures empresa == e
    {
      empresa := e;
    }

    method SetTutorEmpresa(t: TutorEmpresa?)
      modifies this`tutorEmpresa
      ensures tutorEmpresa == t
    {
      tutorEmpresa := t;
    }

    /** setPeriodo: a non-null period also brings its academic year; null keeps the old year. */
    method SetPeriodo(p: Periodo?)
      modifies this`periodo, this`cursoAcademico
      ensures periodo == p
      ensures p != null ==> cursoAcademico == p.cursoAcademico
      ensures p == null ==> cursoAcademico == old(cursoAcademico)
    {
      periodo := p;
      if p != null {
        cursoAcademico := p.cursoAcademico;
      }
    }

    /** addDocumento: the document goes to the end of the list and points back here. */
    method AddDocumento(d: Documento)
      modifies this`documentos, d`fct
      ensures documentos == old(documentos) + [d]
      ensures d.fct == this
    {
      documentos := documentos + [d];
      d.fct := this;
    }

    /** removeDocumento: the first occurrence leaves the list and the document loses its placement. */
    method RemoveDocumento(d: Documento)
      modifies this`documentos, d`fct
      ensures documentos == RemoveFirst(old(documentos), d)
      ensures multiset(documentos) == multiset(old(documentos)) - multiset{d}
      ensures d.fct == null
    {
      documentos := RemoveFirst(documentos, d);
      d.fct := null;
    }

    /**
     * getPorcentajeCompletado, as an exact real. The done hours are unboxed
     * only when the total is present and non-zero, so only then must they be present.
     */
    function GetPorcentajeCompletado(): (r: real)
      reads this
      requires SinTotal(horasTotales) || horasRealizadas.Some?
      ensures SinTotal(horasTotales) ==> r == 0.0
      ensures !SinTotal(horasTotales) ==> r * horasTotales.value as real == 100.0 * horasRealizadas.value as real
    {
      Porcentaje(horasRealizadas, horasTotales)
    }

    /** finalizar: FINALIZADA from any state, with the modification time refreshed. */
    method Finalizar(ahora: Instante)
      modifies this`estado, this`fechaModificacion
      ensures estado == Some(FINALIZADA) && fechaModificacion == Some(ahora)
    {
      estado := Some(FINALIZADA);
      fechaModificacion := Some(ahora);
    }

    /** cancelar: CANCELADA from any state, with the modification time refreshed; the notes stay. */
    method Cancelar(ahora: Instante)
      modifies this`estado, this`fechaModificacion
      ensures estado == Some(CANCELADA) && fechaModificacion == Some(ahora)
    {
      estado := Some(CANCELADA);
      fechaModificacion := Some(ahora);
    }
  }

  // ================================================================ properties across entities

  /** getFctActiva and tieneFctsActivas agree: a list has a first ACTIVA placement exactly when it has one. */
  lemma FctActivaSiHayActivas(e: Estudiante, t: TutorEmpresa)
    requires e.fcts == t.fcts
    ensures (e.GetFctActiva() != null) <==> t.TieneFctsActivas()
  {
  }

  /**
   * The copies an FCT takes of its period are values: changing the period's
   * dates and hours afterwards leaves the placement as it was.
   */
  method CopiaIndependiente(p: Periodo, inicio: Option<Fecha>, fin: Option<Fecha>, horas: Option<int>,
                            ahora: Instante) returns (f: FCT)
    modifies p
    ensures fresh(f)
    ensures f.fechaInicio == old(p.fechaInicio) && f.fechaFin == old(p.fechaFin) && f.horasTotales == old(p.horasTotales)
    ensures p.fechaInicio == inicio && p.fechaFin == fin && p.horasTotales == horas
  {
    f := new FCT.Asignar(null, null, null, p, ahora);
    p.SetFechaInicio(inicio);
    p.SetFechaFin(fin);
    p.SetHorasTotales(horas);
  }

  /** finalizar and cancelar accept a placement in any state; only the buttons restrict them to ACTIVA. */
  method CancelarTrasFinalizar(f: FCT, t1: Instante, t2: Instante)
    modifies f
    ensures f.estado == Some(CANCELADA) && f.fechaModificacion == Some(t2)
    ensures f.observaciones == old(f.observaciones) && f.horasRealizadas == old(f.horasRealizadas)
  {
    f.Finalizar(t1);
    assert f.estado == Some(FINALIZADA);
    f.Cancelar(t2);
  }

  /** Illustration of GetPorcentajeCompletado: 380 of the 400 hours of a period give 95 percent. */
  method EjemploProgreso(p: Periodo, ahora: Instante) returns (f: FCT, r: real)
    modifies p
    ensures fresh(f) && f.horasTotales == Some(400) && f.horasRealizadas == Some(380)
    ensures r == 95.0
  {
    p.SetHorasTotales(Some(400));
    f := new FCT.Asignar(null, null, null, p, ahora);
    f.SetHorasRealizadas(Some(380));
    PorcentajeEjemplos();
    r := f.GetPorcentajeCompletado();
  }
}
