/**
 * EstudianteService over the stored students: validation before saving, the
 * email-in-use check used while editing, the listing ordered by surnames and
 * the case-insensitive name search of EstudianteRepository.
 */
module EstudianteServicio {
  import opened Base
  import opened Texto
  import opened Modelo

  const MensajeNombre := "El nombre es obligatorio"
  const MensajeApellidos := "Los apellidos son obligatorios"
  const MensajeEmail := "El email es obligatorio"
  const MensajeEmailInvalido := "El email no es válido"
  const MensajeCiclo := "El ciclo es obligatorio"
  const MensajeGrupo := "El grupo es obligatorio"

  /** A required text the validation rejects: null, or nothing left once trimmed. */
  predicate Ausente(o: Option<string>)
  {
    o.None? || IsBlank(o.value)
  }

  /** The test `s == null || s.trim().isEmpty()`. */
  function Falta(o: Option<string>): (r: bool)
    ensures r <==> Ausente(o)
  {
    if o.None? then true
    else
      TrimEmptyIffBlank(o.value);
      Trim(o.value) == ""
  }

  /** `s.matches("^[A-Za-z0-9+_.-]+@(.+)$")`. */
  function EmailValido(s: string): (r: bool)
    ensures r <==> MatchesEmailPattern(s)
  {
    IsValidEmailMatchesPattern(s);
    IsValidEmail(s)
  }

  /** The first three checks pass: name, surnames and email are present. */
  predicate EmailPresente(e: Estudiante)
    reads e
  {
    !Ausente(e.nombre) && !Ausente(e.apellidos) && !Ausente(e.email)
  }

  /**
   * validar: the message of the first check that fails, in the order name,
   * surnames, email present, email format, cycle, group; None when all pass.
   * The format is checked on the email as typed, not on its trimmed form.
   */
  function Validar(e: Estudiante): (r: Option<string>)
    reads e
    ensures r.None? <==>
      !Ausente(e.nombre) && !Ausente(e.apellidos) && !Ausente(e.email) && MatchesEmailPattern(e.email.value)
      && !Ausente(e.ciclo) && !Ausente(e.grupo)
    ensures Ausente(e.nombre) ==> r == Some(MensajeNombre)
    ensures !Ausente(e.nombre) && Ausente(e.apellidos) ==> r == Some(MensajeApellidos)
    ensures !Ausente(e.nombre) && !Ausente(e.apellidos) && Ausente(e.email) ==> r == Some(MensajeEmail)
    ensures EmailPresente(e) && !MatchesEmailPattern(e.email.value) ==> r == Some(MensajeEmailInvalido)
    ensures EmailPresente(e) && MatchesEmailPattern(e.email.value) && Ausente(e.ciclo) ==> r == Some(MensajeCiclo)
    ensures EmailPresente(e) && MatchesEmailPattern(e.email.value) && !Ausente(e.ciclo) && Ausente(e.grupo)
      ==> r == Some(MensajeGrupo)
  {
    if Falta(e.nombre) then Some(MensajeNombre)
    else if Falta(e.apellidos) then Some(MensajeApellidos)
    else if Falta(e.email) then Some(MensajeEmail)
    else if !EmailValido(e.email.value) then Some(MensajeEmailInvalido)
    else if Falta(e.ciclo) then Some(MensajeCiclo)
    else if Falta(e.grupo) then Some(MensajeGrupo)
    else None
  }

  /** An email with a space before the '@' is refused for its format once it is present. */
  lemma EmailConEspacioInvalido(e: Estudiante)
    requires !Ausente(e.nombre) && !Ausente(e.apellidos)
    requires e.email == Some(" a@b")
    ensures Validar(e) == Some(MensajeEmailInvalido)
  {
    assert !IsBlank(" a@b") by { assert !IsSpace(" a@b"[1]); }
    assert LocalPrefixLength(" a@b") == 0;
    assert !IsValidEmail(" a@b");
    IsValidEmailMatchesPattern(" a@b");
  }

  /**
   * guardar: the student is saved only when validation passes, otherwise the
   * store is left as it was and the message is the error. Saving a student
   * already stored changes nothing in the list; a new one goes to its end.
   */
  function Guardar(almacen: seq<Estudiante>, e: Estudiante): (r: Result<seq<Estudiante>, string>)
    reads e
    ensures r.Err? <==> Validar(e).Some?
    ensures r.Err? ==> r.error == Validar(e).value
    ensures r.Ok? && e in almacen ==> r.value == almacen
    ensures r.Ok? && e !in almacen ==> r.value == almacen + [e]
    ensures r.Ok? ==> e in r.value && EsSubsecuencia(almacen, r.value)
  {
    var error := Validar(e);
    if error.Some? then Err(error.value)
    else
      var nuevo := if e in almacen then almacen else almacen + [e];
      SubsecuenciaReflexiva(almacen);
      PrefijoEsSubsecuencia(almacen, [e]);
      Ok(nuevo)
  }

  /** The position of the first student with that email, or |s| when there is none. */
  function BuscarPorEmail(s: seq<Estudiante>, email: string): (k: nat)
    reads s
    ensures k <= |s|
    ensures forall i :: 0 <= i < k ==> s[i].email != Some(email)
    ensures k < |s| ==> s[k].email == Some(email)
  {
    if s == [] then 0
    else if s[0].email == Some(email) then 0
    else 1 + BuscarPorEmail(s[1..], email)
  }

  /**
   * existeEmail(email, idExcluir): false when no student has the email;
   * otherwise true exactly when its holder is not the student being edited.
   * findByEmail needs at most one holder, and the holder's id is compared,
   * so it must have one.
   */
  function ExisteEmail(almacen: seq<Estudiante>, email: string, idExcluir: Option<int>): (r: bool)
    reads almacen
    requires forall i, j :: 0 <= i < j < |almacen| && almacen[i].email == Some(email) ==> almacen[j].email != Some(email)
    requires forall i :: 0 <= i < |almacen| && almacen[i].email == Some(email) ==> almacen[i].id.Some?
    ensures (forall i :: 0 <= i < |almacen| ==> almacen[i].email != Some(email)) ==> !r
    ensures forall i :: 0 <= i < |almacen| && almacen[i].email == Some(email) ==> (r <==> almacen[i].id != idExcluir)
  {
    var k := BuscarPorEmail(almacen, email);
    if k == |almacen| then false else almacen[k].id != idExcluir
  }

  // ---------------------------------------------------------------- listing and search

  /** The sort key of findAllByOrderByApellidosAsc: the surnames, which the column never leaves null. */
  function Apellidos(e: Estudiante): string
    reads e
  {
    if e.apellidos.Some? then e.apellidos.value else ""
  }

  predicate OrdenadosPorApellidos(s: seq<Estudiante>)
    reads s
  {
    forall i, j :: 0 <= i < j < |s| ==> LexLe(Apellidos(s[i]), Apellidos(s[j]))
  }

  /** `x` placed before the first student of `s` whose surnames come after its own. */
  function Insertar(x: Estudiante, s: seq<Estudiante>): (r: seq<Estudiante>)
    reads x, s
    requires OrdenadosPorApellidos(s)
    ensures multiset(r) == multiset(s) + multiset{x}
    ensures forall j :: 0 <= j < |r| ==> r[j] == x || r[j] in s
    ensures OrdenadosPorApellidos(r)
  {
    if s == [] then [x]
    else if LexLe(Apellidos(x), Apellidos(s[0])) then
      CotaInferiorSiPrimera(x, s);
      OrdenadoConCabeza(x, s);
      [x] + s
    else
      ColaOrdenada(s);
      var t := Insertar(x, s[1..]);
      InsertadoDetras(x, s, t);
      [s[0]] + t
  }

  /** The tail of a sorted list is sorted and holds nothing new. */
  lemma ColaOrdenada(s: seq<Estudiante>)
    requires s != [] && OrdenadosPorApellidos(s)
    ensures OrdenadosPorApellidos(s[1..])
    ensures forall o :: o in s[1..] ==> o in s
  {
    forall i, j | 0 <= i < j < |s[1..]| ensures LexLe(Apellidos(s[1..][i]), Apellidos(s[1..][j])) {
      assert s[1..][i] == s[i + 1] && s[1..][j] == s[j + 1];
    }
  }

  /** Keeping the head in front of the tail with `x` put in gives `s` with `x` put in. */
  lemma InsertadoDetras(x: Estudiante, s: seq<Estudiante>, t: seq<Estudiante>)
    requires s != [] && OrdenadosPorApellidos(s) && !LexLe(Apellidos(x), Apellidos(s[0]))
    requires multiset(t) == multiset(s[1..]) + multiset{x}
    requires forall j :: 0 <= j < |t| ==> t[j] == x || t[j] in s[1..]
    requires OrdenadosPorApellidos(t)
    ensures multiset([s[0]] + t) == multiset(s) + multiset{x}
    ensures forall j :: 0 <= j < |[s[0]] + t| ==> ([s[0]] + t)[j] == x || ([s[0]] + t)[j] in s
    ensures OrdenadosPorApellidos([s[0]] + t)
  {
    assert s == [s[0]] + s[1..];
    LexLeTotal(Apellidos(x), Apellidos(s[0]));
    CotaInferiorDelResto(s, x, t);
    OrdenadoConCabeza(s[0], t);
    var r := [s[0]] + t;
    forall j | 0 <= j < |r| ensures r[j] == x || r[j] in s {
      if j > 0 { assert r[j] == t[j - 1]; }
    }
  }

  /** A sorted list stays sorted behind a head that precedes all of it. */
  lemma OrdenadoConCabeza(h: Estudiante, t: seq<Estudiante>)
    requires OrdenadosPorApellidos(t)
    requires forall j :: 0 <= j < |t| ==> LexLe(Apellidos(h), Apellidos(t[j]))
    ensures OrdenadosPorApellidos([h] + t)
  {
    var r := [h] + t;
    forall i, j | 0 <= i < j < |r| ensures LexLe(Apellidos(r[i]), Apellidos(r[j])) {
      assert r[j] == t[j - 1];
      if i > 0 { assert r[i] == t[i - 1]; }
    }
  }

  /** What precedes the first surname of a sorted list precedes all of them. */
  lemma CotaInferiorSiPrimera(x: Estudiante, s: seq<Estudiante>)
    requires s != [] && OrdenadosPorApellidos(s) && LexLe(Apellidos(x), Apellidos(s[0]))
    ensures forall j :: 0 <= j < |s| ==> LexLe(Apellidos(x), Apellidos(s[j]))
  {
    forall j | 0 <= j < |s| ensures LexLe(Apellidos(x), Apellidos(s[j])) {
      if j > 0 { LexLeTrans(Apellidos(x), Apellidos(s[0]), Apellidos(s[j])); }
    }
  }

  /** The head of a sorted list precedes the rest with `x` put in, when it precedes `x`. */
  lemma CotaInferiorDelResto(s: seq<Estudiante>, x: Estudiante, t: seq<Estudiante>)
    requires s != [] && OrdenadosPorApellidos(s) && LexLe(Apellidos(s[0]), Apellidos(x))
    requires forall j :: 0 <= j < |t| ==> t[j] == x || t[j] in s[1..]
    ensures forall j :: 0 <= j < |t| ==> LexLe(Apellidos(s[0]), Apellidos(t[j]))
  {
    forall j | 0 <= j < |t| ensures LexLe(Apellidos(s[0]), Apellidos(t[j])) {
      if t[j] != x {
        var k :| 0 <= k < |s[1..]| && s[1..][k] == t[j];
        assert s[k + 1] == t[j];
      }
    }
  }

  /**
   * obtenerTodos (findAllByOrderByApellidosAsc): the same students, ordered
   * by surnames.
   */
  function ObtenerTodos(almacen: seq<Estudiante>): (r: seq<Estudiante>)
    reads almacen
    ensures multiset(r) == multiset(almacen)
    ensures forall j :: 0 <= j < |r| ==> r[j] in almacen
    ensures OrdenadosPorApellidos(r)
  {
    if almacen == [] then []
    else
      assert almacen == [almacen[0]] + almacen[1..];
      var resto := ObtenerTodos(almacen[1..]);
      Insertar(almacen[0], resto)
  }

  /** LOWER(campo) LIKE LOWER('%' || busqueda || '%'): a null column never matches. */
  predicate CoincideTexto(campo: Option<string>, busqueda: string)
  {
    campo.Some? && Contains(ToLower(campo.value), ToLower(busqueda))
  }

  predicate CoincideNombreOApellidos(e: Estudiante, busqueda: string)
    reads e
  {
    CoincideTexto(e.nombre, busqueda) || CoincideTexto(e.apellidos, busqueda)
  }

  /** buscarPorNombreOApellidos: the stored students whose name or surnames contain the text, in stored order. */
  function BuscarPorNombreOApellidos(almacen: seq<Estudiante>, busqueda: string): (r: seq<Estudiante>)
    reads almacen
    ensures forall i :: 0 <= i < |r| ==> r[i] in almacen && CoincideNombreOApellidos(r[i], busqueda)
    ensures forall i :: 0 <= i < |almacen| && CoincideNombreOApellidos(almacen[i], busqueda) ==> almacen[i] in r
    ensures EsSubsecuencia(r, almacen)
  {
    if almacen == [] then []
    else
      var resto := BuscarPorNombreOApellidos(almacen[1..], busqueda);
      assert almacen == [almacen[0]] + almacen[1..];
      if CoincideNombreOApellidos(almacen[0], busqueda) then
        assert ([almacen[0]] + resto)[1..] == resto;
        [almacen[0]] + resto
      else resto
  }

  /** The empty search finds every student that has a name or surnames. */
  lemma BusquedaVaciaEncuentraTodos(almacen: seq<Estudiante>, e: Estudiante)
    requires e in almacen && (e.nombre.Some? || e.apellidos.Some?)
    ensures e in BuscarPorNombreOApellidos(almacen, "")
  {
    if e.nombre.Some? { ContainsEmpty(ToLower(e.nombre.value)); }
    else { ContainsEmpty(ToLower(e.apellidos.value)); }
  }
}
