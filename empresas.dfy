/**
 * The rule blocks of EmpresaController: the table filter, the guard before
 * deleting a company, and the company dialog (normalisation, validation and
 * the fields it writes), followed by the save that the column constraints
 * can still refuse. The stored companies are a sequence of Empresa objects.
 */
module GestionEmpresas {
  import opened Base
  import opened Texto
  import opened Excepciones
  import opened Modelo

  // ---------------------------------------------------------------- filter

  const FiltroActivas := "Activas"
  const FiltroInactivas := "Inactivas"

  /** The state combo ("Todas", "Activas" or "Inactivas"): only a TRUE flag counts as active. */
  predicate PasaEstado(e: Empresa, filtroEstado: Option<string>)
    reads e
  {
    !(filtroEstado == Some(FiltroActivas) && e.activa != Some(true))
    && !(filtroEstado == Some(FiltroInactivas) && e.activa == Some(true))
  }

  /** A nullable column containing the search once lower-cased; null never matches. */
  predicate CoincideCampo(campo: Option<string>, busqueda: string)
  {
    campo.Some? && Contains(ToLower(campo.value), busqueda)
  }

  /**
   * The stream filter of aplicarFiltros for one company, with the search
   * already lower-cased and trimmed. The name is lower-cased without a null
   * check, so a non-empty search needs it.
   */
  predicate PasaFiltroEmpresa(e: Empresa, busqueda: string, filtroEstado: Option<string>)
    reads e
    requires busqueda != "" && PasaEstado(e, filtroEstado) ==> e.nombre.Some?
  {
    if !PasaEstado(e, filtroEstado) then false
    else if busqueda != "" then
      Contains(ToLower(e.nombre.value), busqueda) || CoincideCampo(e.nif, busqueda) || CoincideCampo(e.localidad, busqueda)
    else true
  }

  predicate NombresPresentes(todas: seq<Empresa>, busqueda: string, filtroEstado: Option<string>)
    reads todas
  {
    forall i :: 0 <= i < |todas| && busqueda != "" && PasaEstado(todas[i], filtroEstado) ==> todas[i].nombre.Some?
  }

  /** The filter over the list, in list order. */
  function FiltrarEmpresas(todas: seq<Empresa>, busqueda: string, filtroEstado: Option<string>): (r: seq<Empresa>)
    reads todas
    requires NombresPresentes(todas, busqueda, filtroEstado)
    ensures forall i :: 0 <= i < |r| ==> r[i] in todas && PasaFiltroEmpresa(r[i], busqueda, filtroEstado)
    ensures forall i :: 0 <= i < |todas| && PasaFiltroEmpresa(todas[i], busqueda, filtroEstado) ==> todas[i] in r
    ensures EsSubsecuencia(r, todas)
  {
    if todas == [] then []
    else
      assert todas == [todas[0]] + todas[1..];
      assert NombresPresentes(todas[1..], busqueda, filtroEstado) by {
        forall i | 0 <= i < |todas[1..]| ensures todas[1..][i] == todas[i + 1] { }
      }
      var resto := FiltrarEmpresas(todas[1..], busqueda, filtroEstado);
      if PasaFiltroEmpresa(todas[0], busqueda, filtroEstado) then
        assert ([todas[0]] + resto)[1..] == resto;
        [todas[0]] + resto
      else resto
  }

  /** aplicarFiltros: the search box is lower-cased and then trimmed before filtering. */
  function AplicarFiltrosEmpresas(todas: seq<Empresa>, texto: string, filtroEstado: Option<string>): (r: seq<Empresa>)
    reads todas
    requires NombresPresentes(todas, Trim(ToLower(texto)), filtroEstado)
    ensures forall i :: 0 <= i < |r| ==> r[i] in todas && PasaFiltroEmpresa(r[i], Trim(ToLower(texto)), filtroEstado)
    ensures forall i :: 0 <= i < |todas| && PasaFiltroEmpresa(todas[i], Trim(ToLower(texto)), filtroEstado) ==>
              todas[i] in r
    ensures EsSubsecuencia(r, todas)
  {
    FiltrarEmpresas(todas, Trim(ToLower(texto)), filtroEstado)
  }

  /**
   * Without a search, "Activas" and "Inactivas" split the list: every company
   * is shown by exactly one of them, a null flag going with the inactive ones.
   */
  lemma {:induction false} ActivasEInactivasReparten(todas: seq<Empresa>)
    ensures NombresPresentes(todas, "", Some(FiltroActivas)) && NombresPresentes(todas, "", Some(FiltroInactivas))
    ensures forall i :: 0 <= i < |todas| ==>
      PasaFiltroEmpresa(todas[i], "", Some(FiltroActivas)) != PasaFiltroEmpresa(todas[i], "", Some(FiltroInactivas))
    ensures |FiltrarEmpresas(todas, "", Some(FiltroActivas))| + |FiltrarEmpresas(todas, "", Some(FiltroInactivas))|
      == |todas|
  {
    if todas != [] {
      ActivasEInactivasReparten(todas[1..]);
      assert todas == [todas[0]] + todas[1..];
    }
  }

  /** Without a search or a state filter, every company is shown, in stored order. */
  lemma {:induction false} SinFiltrosMuestraTodas(todas: seq<Empresa>)
    ensures NombresPresentes(todas, "", None) && FiltrarEmpresas(todas, "", None) == todas
  {
    if todas != [] {
      SinFiltrosMuestraTodas(todas[1..]);
      assert todas == [todas[0]] + todas[1..];
    }
  }

  // ---------------------------------------------------------------- deletion

  const MensajeConFcts := "La empresa tiene FCTs asociadas. Debe eliminarlas o reasignarlas primero."

  /** findByEmpresa is not empty: some placement, in any state, names the company. */
  predicate TieneFcts(fcts: seq<FCT>, e: Empresa)
    reads fcts
  {
    exists i :: 0 <= i < |fcts| && fcts[i].empresa == e
  }

  /**
   * handleEliminar: a company some placement refers to is refused with the
   * message; otherwise, once confirmed, it leaves the store and the others
   * keep their order. Without confirmation nothing changes.
   */
  function Eliminar(empresas: seq<Empresa>, fcts: seq<FCT>, e: Empresa, confirmado: bool)
    : (r: Result<seq<Empresa>, string>)
    reads fcts
    ensures r.Err? <==> TieneFcts(fcts, e)
    ensures r.Err? ==> r.error == MensajeConFcts
    ensures r.Ok? && !confirmado ==> r.value == empresas
    ensures r.Ok? && confirmado ==> multiset(r.value) == multiset(empresas) - multiset{e} && EsSubsecuencia(r.value, empresas)
  {
    if TieneFcts(fcts, e) then Err(MensajeConFcts)
    else if !confirmado then Ok(empresas)
    else
      RemoveFirstEsSubsecuencia(empresas, e);
      Ok(RemoveFirst(empresas, e))
  }

  /** Deleting a company stored once leaves no trace of it in the store. */
  lemma EliminadaNoQueda(empresas: seq<Empresa>, fcts: seq<FCT>, e: Empresa)
    requires EmpresasValidas(empresas) && !TieneFcts(fcts, e)
    ensures Eliminar(empresas, fcts, e, true).Ok?
    ensures e !in Eliminar(empresas, fcts, e, true).value
  {
    SinRepetidas(empresas);
    RemoveFirstSinRepetidas(empresas, e);
  }

  /** In a list without repeated entities, removing the first occurrence removes the only one. */
  lemma RemoveFirstSinRepetidas(empresas: seq<Empresa>, e: Empresa)
    requires forall i, j :: 0 <= i < j < |empresas| ==> empresas[i] != empresas[j]
    ensures e !in RemoveFirst(empresas, e)
  {
    if e in empresas {
      var k := FirstIndex(empresas, e);
      assert RemoveFirst(empresas, e) == empresas[..k] + empresas[k + 1..];
      forall i | k < i < |empresas| ensures empresas[i] != e {
        assert empresas[k] != empresas[i];
      }
    }
  }

  /** The column constraints imply that no company is stored twice. */
  lemma SinRepetidas(empresas: seq<Empresa>)
    requires EmpresasValidas(empresas)
    ensures forall i, j :: 0 <= i < j < |empresas| ==> empresas[i] != empresas[j]
  {
  }

  // ---------------------------------------------------------------- dialog

  /** The NIF as the dialog reads it: trimmed, then upper-cased. */
  function NormalizarNif(texto: string): (r: string)
    ensures |r| == |Trim(texto)|
    ensures forall i :: 0 <= i < |r| ==> r[i] == UpperChar(Trim(texto)[i])
    ensures r == "" <==> IsBlank(texto)
    ensures r != "" ==> !IsSpace(r[0]) && !IsSpace(r[|r| - 1])
  {
    TrimEmptyIffBlank(texto);
    TrimmedEdges(texto);
    ToUpper(Trim(texto))
  }

  /** A normalised NIF is its own normal form. */
  lemma NormalizarNifIdempotente(texto: string)
    ensures NormalizarNif(NormalizarNif(texto)) == NormalizarNif(texto)
  {
    ToUpperTrim(Trim(texto));
    TrimIdempotent(texto);
    ToUpperIdempotent(Trim(texto));
  }

  /** Illustration of NormalizarNif: two spellings that differ in case and surrounding spaces are the same NIF. */
  lemma NifSinMayusculasNiEspacios()
    ensures NormalizarNif(" b1x ") == NormalizarNif("B1X")
  {
    assert LeadingSpaces(" b1x ") == 1 by { assert !IsSpace(" b1x "[1]); }
    assert TrimmedEnd(" b1x ", 1) == 4 by {
      assert !IsSpace(" b1x "[3]);
      assert TrimmedEnd(" b1x "[..4], 1) == 4;
    }
    assert Trim(" b1x ") == "b1x";
    assert LeadingSpaces("B1X") == 0 && TrimmedEnd("B1X", 0) == 3;
    assert Trim("B1X") == "B1X";
  }

  /** What the text fields hold when Guardar is pressed, and the "active" check box. */
  datatype FormularioEmpresa = FormularioEmpresa(
    nombre: string, nif: string, direccion: string, localidad: string, codigoPostal: string,
    provincia: string, telefono: string, email: string, contacto: string, sector: string,
    observaciones: string, activa: bool)

  /** existsByNif. */
  predicate ExisteNif(empresas: seq<Empresa>, nif: string)
    reads empresas
  {
    exists i :: 0 <= i < |empresas| && empresas[i].nif == Some(nif)
  }

  /**
   * The checks of the result converter, in order: a name, a NIF, an email in
   * the pattern when one was typed (checked once trimmed), and, for a new
   * company only, a NIF nobody has yet.
   */
  function ValidarEmpresa(empresas: seq<Empresa>, form: FormularioEmpresa, esNueva: bool): (r: Option<Excepcion>)
    reads empresas
    ensures r.None? <==>
      !IsBlank(form.nombre) && !IsBlank(form.nif) && (IsBlank(form.email) || MatchesEmailPattern(Trim(form.email)))
      && !(esNueva && ExisteNif(empresas, NormalizarNif(form.nif)))
    ensures IsBlank(form.nombre) ==> r == Some(ValidacionCampo("nombre", "es obligatorio"))
    ensures !IsBlank(form.nombre) && IsBlank(form.nif) ==> r == Some(ValidacionCampo("NIF", "es obligatorio"))
    ensures !IsBlank(form.nombre) && !IsBlank(form.nif) && !IsBlank(form.email) && !MatchesEmailPattern(Trim(form.email))
      ==> r == Some(ValidacionCampo("email", "formato inválido"))
    ensures !IsBlank(form.nombre) && !IsBlank(form.nif) && (IsBlank(form.email) || MatchesEmailPattern(Trim(form.email)))
      && esNueva && ExisteNif(empresas, NormalizarNif(form.nif))
      ==> r == Some(DuplicadoCampo("NIF", NormalizarNif(form.nif)))
    ensures r.Some? && r.value.Duplicado? ==> esNueva && r == Some(DuplicadoCampo("NIF", NormalizarNif(form.nif)))
  {
    var nombre := Trim(form.nombre);
    var nif := NormalizarNif(form.nif);
    var email := Trim(form.email);
    TrimEmptyIffBlank(form.nombre);
    TrimEmptyIffBlank(form.email);
    IsValidEmailMatchesPattern(email);
    if nombre == "" then Some(ValidacionCampo("nombre", "es obligatorio"))
    else if nif == "" then Some(ValidacionCampo("NIF", "es obligatorio"))
    else if email != "" && !IsValidEmail(email) then Some(ValidacionCampo("email", "formato inválido"))
    else if esNueva && ExisteNif(empresas, nif) then Some(DuplicadoCampo("NIF", nif))
    else None
  }

  /** Every text of the form as `getText().trim()` gives it; the check box as it is. */
  function Recortado(form: FormularioEmpresa): FormularioEmpresa
  {
    FormularioEmpresa(Trim(form.nombre), Trim(form.nif), Trim(form.direccion), Trim(form.localidad),
                      Trim(form.codigoPostal), Trim(form.provincia), Trim(form.telefono), Trim(form.email),
                      Trim(form.contacto), Trim(form.sector), Trim(form.observaciones), form.activa)
  }

  /**
   * The fields the converter writes on new and edited companies alike, from
   * the trimmed texts: an empty email becomes null, the flag is the check box.
   */
  predicate CamposEscritos(emp: Empresa, rec: FormularioEmpresa)
    reads emp
  {
    emp.nombre == Some(rec.nombre) && DireccionEscrita(emp, rec) && ContactoEscrito(emp, rec)
    && emp.observaciones == Some(rec.observaciones) && emp.activa == Some(rec.activa)
  }

  predicate DireccionEscrita(emp: Empresa, rec: FormularioEmpresa)
    reads emp`direccion, emp`localidad, emp`codigoPostal, emp`provincia
  {
    emp.direccion == Some(rec.direccion) && emp.localidad == Some(rec.localidad)
    && emp.codigoPostal == Some(rec.codigoPostal) && emp.provincia == Some(rec.provincia)
  }

  predicate ContactoEscrito(emp: Empresa, rec: FormularioEmpresa)
    reads emp`telefono, emp`email, emp`personaContacto, emp`sector
  {
    emp.telefono == Some(rec.telefono) && emp.email == (if |rec.email| == 0 then None else Some(rec.email))
    && emp.personaContacto == Some(rec.contacto) && emp.sector == Some(rec.sector)
  }

  /** A company written from a form has a null email exactly when the email typed was blank. */
  lemma EmailVacioEsNulo(emp: Empresa, form: FormularioEmpresa)
    requires CamposEscritos(emp, Recortado(form))
    ensures emp.email.None? <==> IsBlank(form.email)
    ensures emp.email.Some? ==> emp.email.value == Trim(form.email)
  {
    TrimEmptyIffBlank(form.email);
  }

  /**
   * The result converter: a failed check changes nothing. Otherwise a new
   * company (or the one being edited) gets every field trimmed, the NIF only
   * when it is new, a null email for an empty one and the check box as its
   * flag; its tutors and placements are not touched.
   */
  method ConvertirEmpresa(empresas: seq<Empresa>, empresa: Empresa?, form: FormularioEmpresa)
    returns (r: Result<Empresa, Excepcion>)
    modifies if empresa == null then {} else {empresa}
    ensures r.Err? <==> old(ValidarEmpresa(empresas, form, empresa == null)).Some?
    ensures r.Err? ==> r.error == old(ValidarEmpresa(empresas, form, empresa == null)).value
    ensures r.Err? && empresa != null ==> unchanged(empresa)
    ensures r.Ok? && empresa == null ==> fresh(r.value) && r.value.nif == Some(NormalizarNif(form.nif))
    ensures r.Ok? && empresa == null ==> r.value.id.None? && r.value.tutores == [] && r.value.fcts == []
    ensures r.Ok? && empresa != null ==> r.value == empresa && unchanged(empresa`id, empresa`nif, empresa`tutores, empresa`fcts)
    ensures r.Ok? ==> CamposEscritos(r.value, Recortado(form))
  {
    var error := ValidarEmpresa(empresas, form, empresa == null);
    if error.Some? {
      return Err(error.value);
    }
    var emp: Empresa;
    if empresa == null {
      emp := new Empresa();
      emp.nif := Some(NormalizarNif(form.nif));
    } else {
      emp := empresa;
    }
    EscribirCampos(emp, Recortado(form));
    r := Ok(emp);
  }

  /** The setters the converter calls on new and edited companies alike. */
  method EscribirCampos(emp: Empresa, rec: FormularioEmpresa)
    modifies emp
    ensures unchanged(emp`id, emp`nif, emp`tutores, emp`fcts)
    ensures CamposEscritos(emp, rec)
  {
    emp.nombre, emp.observaciones, emp.activa := Some(rec.nombre), Some(rec.observaciones), Some(rec.activa);
    EscribirDireccion(emp, rec);
    EscribirContacto(emp, rec);
  }

  method EscribirDireccion(emp: Empresa, rec: FormularioEmpresa)
    modifies emp`direccion, emp`localidad, emp`codigoPostal, emp`provincia
    ensures DireccionEscrita(emp, rec)
  {
    emp.direccion, emp.localidad := Some(rec.direccion), Some(rec.localidad);
    emp.codigoPostal, emp.provincia := Some(rec.codigoPostal), Some(rec.provincia);
  }

  method EscribirContacto(emp: Empresa, rec: FormularioEmpresa)
    modifies emp`telefono, emp`email, emp`personaContacto, emp`sector
    ensures ContactoEscrito(emp, rec)
  {
    emp.telefono := Some(rec.telefono);
    emp.email := if |rec.email| == 0 then None else Some(rec.email);
    emp.personaContacto, emp.sector := Some(rec.contacto), Some(rec.sector);
  }

  const MensajeErrorGuardar := "Error al guardar"

  /**
   * empresaService.save: a stored company is updated where it is, a new one
   * is appended; the save fails when the result would break the column
   * constraints of the table (see Modelo.EmpresasValidas).
   */
  function GuardarEmpresa(empresas: seq<Empresa>, emp: Empresa): (r: Result<seq<Empresa>, string>)
    reads empresas, emp
    ensures r.Ok? <==> EmpresasValidas(if emp in empresas then empresas else empresas + [emp])
    ensures r.Err? ==> r.error == MensajeErrorGuardar
    ensures r.Ok? ==> EmpresasValidas(r.value) && emp in r.value && EsSubsecuencia(empresas, r.value)
    ensures r.Ok? ==> |r.value| == |empresas| + (if emp in empresas then 0 else 1)
  {
    var candidato := if emp in empresas then empresas else empresas + [emp];
    SubsecuenciaReflexiva(empresas);
    PrefijoEsSubsecuencia(empresas, [emp]);
    if EmpresasValidas(candidato) then Ok(candidato) else Err(MensajeErrorGuardar)
  }

  /** Every trimmed text of the form fits the column it is written to. */
  predicate TextosCaben(rec: FormularioEmpresa)
  {
    |rec.nombre| <= 200 && |rec.direccion| <= 300 && |rec.localidad| <= 100 && |rec.codigoPostal| <= 10
    && |rec.provincia| <= 100 && |rec.telefono| <= 20 && |rec.email| <= 100 && |rec.contacto| <= 200
    && |rec.sector| <= 500 && |rec.observaciones| <= 1000
  }

  /** Nobody stored has that email; a null email is always free. */
  predicate EmailLibre(empresas: seq<Empresa>, email: Option<string>)
    reads empresas
  {
    email.None? || forall i :: 0 <= i < |empresas| ==> empresas[i].email != email
  }

  /** A company written from a form fits its row exactly when the texts and the NIF fit. */
  lemma CamposCaben(emp: Empresa, rec: FormularioEmpresa)
    requires CamposEscritos(emp, rec)
    ensures EmpresaCabe(emp) <==> TextosCaben(rec) && emp.nif.Some? && |emp.nif.value| <= 15
  {
  }

  /**
   * A new company written by the dialog is saved exactly when its trimmed
   * texts fit their columns, its NIF fits and is not taken, and its email
   * is not in use; the dialog itself checks only the NIF.
   */
  lemma NuevaSeGuardaSii(empresas: seq<Empresa>, emp: Empresa, form: FormularioEmpresa)
    requires EmpresasValidas(empresas) && emp !in empresas
    requires CamposEscritos(emp, Recortado(form)) && emp.nif == Some(NormalizarNif(form.nif))
    ensures GuardarEmpresa(empresas, emp).Ok? <==>
      TextosCaben(Recortado(form)) && |NormalizarNif(form.nif)| <= 15
      && !ExisteNif(empresas, NormalizarNif(form.nif)) && EmailLibre(empresas, emp.email)
  {
    var s := empresas + [emp];
    var n := |empresas|;
    assert s[n] == emp;
    CamposCaben(emp, Recortado(form));
    if EmpresasValidas(s) {
      assert EmpresaCabe(s[n]);
      forall i | 0 <= i < n ensures empresas[i].nif != emp.nif && (emp.email.Some? ==> empresas[i].email != emp.email) {
        assert s[i] == empresas[i];
      }
    }
    if TextosCaben(Recortado(form)) && |NormalizarNif(form.nif)| <= 15
       && !ExisteNif(empresas, NormalizarNif(form.nif)) && EmailLibre(empresas, emp.email) {
      forall i | 0 <= i < |s| ensures EmpresaCabe(s[i]) {
        if i < n { assert s[i] == empresas[i]; }
      }
      forall i, j | 0 <= i < j < |s|
        ensures s[i] != s[j] && s[i].nif != s[j].nif && (s[i].email.Some? ==> s[i].email != s[j].email)
      {
        assert s[i] == empresas[i];
        if j < n { assert s[j] == empresas[j]; }
      }
    }
  }

  /**
   * A new company that passed the dialog's checks and whose texts fit has a
   * NIF nobody holds, so only an email already in use or a NIF longer than
   * 15 characters can still make the save fail.
   */
  lemma NuevaValidaSeGuarda(empresas: seq<Empresa>, emp: Empresa, form: FormularioEmpresa)
    requires EmpresasValidas(empresas) && emp !in empresas
    requires ValidarEmpresa(empresas, form, true).None?
    requires CamposEscritos(emp, Recortado(form)) && TextosCaben(Recortado(form))
    requires emp.nif == Some(NormalizarNif(form.nif)) && |NormalizarNif(form.nif)| <= 15
    requires EmailLibre(empresas, emp.email)
    ensures GuardarEmpresa(empresas, emp).Ok?
  {
    NuevaSeGuardaSii(empresas, emp, form);
  }
}
