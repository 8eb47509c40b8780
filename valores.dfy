/**
 * The enumerations of the entity model and the values the entities derive
 * from their fields: completion percentage, full address, period
 * description, file extensions, size units, full names and cancellation notes.
 */
module Valores {
  import opened Base
  import opened Texto
  import opened Fechas

  /** The three states of a placement (FCT). */
  datatype EstadoFCT = ACTIVA | FINALIZADA | CANCELADA

  /** The kind of a period. */
  datatype TipoPeriodo = ORDINARIO | EXTRAORDINARIO
  {
    /** Enum.name(). */
    function Nombre(): string
    {
      match this
      case ORDINARIO => "ORDINARIO"
      case EXTRAORDINARIO => "EXTRAORDINARIO"
    }
  }

  /** The kind of an uploaded document, identified by its constant's name. */
  datatype TipoDocumento = TipoDocumento(nombre: string)

  /** The role of a user account. */
  datatype Rol = ADMINISTRADOR | DOCENTE | PROFESOR | TUTOR_EMPRESA | ESTUDIANTE

  // ---------------------------------------------------------------- completion

  /** Hours are considered only when the total is present and non-zero. */
  predicate SinTotal(horasTotales: Option<int>)
  {
    horasTotales.None? || horasTotales.value == 0
  }

  /**
   * FCT.getPorcentajeCompletado as an exact real: 0 without a non-zero total,
   * otherwise done * 100 / total, with no cap at 100. The done hours are
   * unboxed only in the second case, so only there must they be present.
   */
  function Porcentaje(horasRealizadas: Option<int>, horasTotales: Option<int>): (r: real)
    requires SinTotal(horasTotales) || horasRealizadas.Some?
    ensures SinTotal(horasTotales) ==> r == 0.0
    ensures !SinTotal(horasTotales) ==> r * horasTotales.value as real == 100.0 * horasRealizadas.value as real
  {
    if SinTotal(horasTotales) then 0.0
    else (horasRealizadas.value as real * 100.0) / horasTotales.value as real
  }

  /** The percentage is 100 exactly when the done hours equal a non-zero total. */
  lemma PorcentajeCompletoSiIguales(h: int, t: int)
    requires t != 0
    ensures Porcentaje(Some(h), Some(t)) == 100.0 <==> h == t
  {
    var r := Porcentaje(Some(h), Some(t));
    assert r * t as real == 100.0 * h as real;
    if r == 100.0 { assert 100.0 * t as real == 100.0 * h as real; }
  }

  /** More hours done never lowers the percentage of a positive total. */
  lemma PorcentajeMonotono(h1: int, h2: int, t: int)
    requires t > 0 && h1 <= h2
    ensures Porcentaje(Some(h1), Some(t)) <= Porcentaje(Some(h2), Some(t))
  {
    var r1 := Porcentaje(Some(h1), Some(t));
    var r2 := Porcentaje(Some(h2), Some(t));
    assert (r2 - r1) * t as real == 100.0 * (h2 - h1) as real;
  }

  /** Illustration of Porcentaje, whose general laws are the two lemmas above: 200 of 400 is 50, 380 of 400 is 95, 450 of 400 is 112.5 (uncapped). */
  lemma PorcentajeEjemplos()
    ensures Porcentaje(Some(200), Some(400)) == 50.0
    ensures Porcentaje(Some(380), Some(400)) == 95.0
    ensures Porcentaje(Some(450), Some(400)) == 112.5
    ensures Porcentaje(Some(0), Some(400)) == 0.0
    ensures Porcentaje(None, None) == 0.0 && Porcentaje(None, Some(0)) == 0.0
  {
  }

  /**
   * The progress column of the placement table: missing hours count as 0 and
   * the percentage is 0 unless the total is positive.
   */
  function ProgresoColumna(horasRealizadas: Option<int>, horasTotales: Option<int>): (r: real)
    ensures horasTotales.None? || horasTotales.value <= 0 ==> r == 0.0
    ensures horasTotales.Some? && horasTotales.value > 0 ==>
      r * horasTotales.value as real == 100.0 * (if horasRealizadas.Some? then horasRealizadas.value else 0) as real
  {
    var realizadas := if horasRealizadas.Some? then horasRealizadas.value else 0;
    var totales := if horasTotales.Some? then horasTotales.value else 0;
    if totales > 0 then (realizadas as real * 100.0) / totales as real else 0.0
  }

  /**
   * The column and FCT.getPorcentajeCompletado agree whenever the getter is
   * defined and the total is not negative; for a negative total the getter
   * gives a non-zero value and the column 0.
   */
  lemma ProgresoColumnaComoPorcentaje(h: Option<int>, t: Option<int>)
    requires SinTotal(t) || h.Some?
    ensures t.None? || t.value >= 0 ==> ProgresoColumna(h, t) == Porcentaje(h, t)
    ensures t.Some? && t.value < 0 && h.Some? && h.value != 0 ==> ProgresoColumna(h, t) != Porcentaje(h, t)
  {
    if t.Some? && t.value != 0 {
      var p := Porcentaje(h, t);
      assert p * t.value as real == 100.0 * h.value as real;
      if t.value < 0 && h.value != 0 { assert p != 0.0; }
    }
  }

  // ---------------------------------------------------------------- text built from fields

  /** A piece of text between a prefix and a suffix, present only for a non-null field. */
  function Tramo(prefijo: string, campo: Option<string>, sufijo: string): (r: string)
    ensures campo.None? ==> r == ""
    ensures campo.Some? ==> r == prefijo + campo.value + sufijo
  {
    if campo.Some? then prefijo + campo.value + sufijo else ""
  }

  /**
   * Empresa.getDireccionCompleta: the street, ", " and the postal code, " " and
   * the locality, " (" the province ")", each only when the field is not null.
   */
  function DireccionCompleta(direccion: Option<string>, codigoPostal: Option<string>,
                             localidad: Option<string>, provincia: Option<string>): string
  {
    Tramo("", direccion, "") + Tramo(", ", codigoPostal, "") + Tramo(" ", localidad, "") + Tramo(" (", provincia, ")")
  }

  /** With every field null the address is empty; with only the street it is the street. */
  lemma DireccionCompletaCasos(d: string, cp: string, l: string, p: string)
    ensures DireccionCompleta(None, None, None, None) == ""
    ensures DireccionCompleta(Some(d), None, None, None) == d
    ensures DireccionCompleta(Some(d), Some(cp), Some(l), Some(p)) == d + ", " + cp + " " + l + " (" + p + ")"
  {
    assert Tramo("", Some(d), "") == d;
    assert DireccionCompleta(Some(d), None, None, None) == d + "" + "" + "";
    DireccionCompletaEntera(d, cp, l, p);
  }

  lemma DireccionCompletaEntera(d: string, cp: string, l: string, p: string)
    ensures DireccionCompleta(Some(d), Some(cp), Some(l), Some(p)) == d + ", " + cp + " " + l + " (" + p + ")"
  {
    assert Tramo("", Some(d), "") == d;
    assert Tramo(", ", Some(cp), "") == ", " + cp;
    assert Tramo(" ", Some(l), "") == " " + l;
    var a := d + ", " + cp;
    assert d + (", " + cp) == a;
    var b := a + " " + l;
    assert a + (" " + l) == b;
    var c := b + " (" + p;
    assert b + (" (" + p) == c;
    assert b + (" (" + p + ")") == c + ")";
  }

  /** The address is as long as the present fields and their separators together. */
  lemma DireccionCompletaLongitud(d: Option<string>, cp: Option<string>, l: Option<string>, p: Option<string>)
    ensures |DireccionCompleta(d, cp, l, p)| ==
      (if d.Some? then |d.value| else 0) + (if cp.Some? then 2 + |cp.value| else 0)
      + (if l.Some? then 1 + |l.value| else 0) + (if p.Some? then 3 + |p.value| else 0)
  {
  }

  /** The text of a possibly-null date in a string concatenation. */
  function FechaTexto(f: Option<Fecha>): string
  {
    if f.Some? then FechaIso(f.value) else "null"
  }

  /** The text of a possibly-null Integer in a string concatenation. */
  function EnteroTexto(n: Option<int>): string
  {
    if n.Some? then IntToString(n.value) else "null"
  }

  /**
   * Periodo.getDescripcionCompleta: the course number, "º ", the kind's name in
   * lower case, then both dates in ISO form between parentheses.
   */
  function DescripcionCompleta(curso: Option<int>, tipo: TipoPeriodo,
                               fechaInicio: Option<Fecha>, fechaFin: Option<Fecha>): (r: string)
    ensures |r| > |EnteroTexto(curso)| + 2
    ensures r[..|EnteroTexto(curso)| + 2] == EnteroTexto(curso) + "º "
    ensures r[|r| - 1] == ')'
  {
    var r := EnteroTexto(curso) + "º " + ToLower(tipo.Nombre()) + " ("
             + (FechaTexto(fechaInicio) + " - " + FechaTexto(fechaFin)) + ")";
    DescripcionCabeza(EnteroTexto(curso), ToLower(tipo.Nombre()), FechaTexto(fechaInicio) + " - " + FechaTexto(fechaFin));
    r
  }

  lemma DescripcionCabeza(e: string, l: string, fechas: string)
    ensures var r := e + "º " + l + " (" + fechas + ")";
      |r| > |e| + 2 && r[..|e| + 2] == e + "º " && r[|r| - 1] == ')'
  {
    var r := e + "º " + l + " (" + fechas + ")";
    assert r == (e + "º ") + (l + " (" + fechas + ")");
  }

  /** Step of the description proofs: ORDINARIO appears in lower case. */
  lemma OrdinarioEnMinusculas()
    ensures ToLower(ORDINARIO.Nombre()) == "ordinario"
  {
    var bajo := ToLower("ORDINARIO");
    assert |bajo| == 9;
    forall i | 0 <= i < 9 ensures bajo[i] == "ordinario"[i] {
      assert bajo[i] == LowerChar("ORDINARIO"[i]);
    }
  }

  lemma ExtraordinarioEnMinusculas()
    ensures ToLower(EXTRAORDINARIO.Nombre()) == "extraordinario"
  {
    var bajo := ToLower("EXTRAORDINARIO");
    forall i | 0 <= i < 14 ensures bajo[i] == "extraordinario"[i] {
      assert bajo[i] == LowerChar("EXTRAORDINARIO"[i]);
    }
  }

  /** The kind named by its lower-case name. */
  function LeerTipo(t: string): Option<TipoPeriodo>
  {
    if t == ToLower(ORDINARIO.Nombre()) then Some(ORDINARIO)
    else if t == ToLower(EXTRAORDINARIO.Nombre()) then Some(EXTRAORDINARIO)
    else None
  }

  /**
   * Reads a description back: the course text up to the first 'º', the kind
   * up to the first '(', and the two date texts around the first " - ".
   */
  function LeerDescripcion(s: string): Option<(string, TipoPeriodo, string, string)>
  {
    if 'º' !in s then None
    else
      var k := FirstIndex(s, 'º');
      var r := LeerTipoYFechas(s[k + 1..]);
      if r.None? then None else Some((s[..k], r.value.0, r.value.1, r.value.2))
  }

  /** What follows "º": a space, the kind, " (", the dates and ")". */
  function LeerTipoYFechas(resto: string): Option<(TipoPeriodo, string, string)>
  {
    if |resto| < 2 || resto[0] != ' ' || resto[|resto| - 1] != ')' || '(' !in resto then None
    else
      var j := FirstIndex(resto, '(');
      if j < 2 || resto[j - 1] != ' ' || LeerTipo(resto[1..j - 1]).None? then None
      else
        var f := LeerFechas(resto[j + 1..|resto| - 1]);
        if f.None? then None else Some((LeerTipo(resto[1..j - 1]).value, f.value.0, f.value.1))
  }

  /** The two date texts on either side of the first " - ". */
  function LeerFechas(fechas: string): Option<(string, string)>
  {
    if ' ' !in fechas then None
    else
      var m := FirstIndex(fechas, ' ');
      if |fechas| < m + 3 || fechas[m..m + 3] != " - " then None
      else Some((fechas[..m], fechas[m + 3..]))
  }

  /**
   * A description names its course, its kind and both dates unambiguously:
   * reading it back gives the course number's text, the kind, and the text of
   * each date ("null" for a date not set).
   */
  lemma DescripcionCompletaRoundTrip(curso: Option<int>, tipo: TipoPeriodo,
                                     fechaInicio: Option<Fecha>, fechaFin: Option<Fecha>)
    ensures LeerDescripcion(DescripcionCompleta(curso, tipo, fechaInicio, fechaFin))
      == Some((EnteroTexto(curso), tipo, FechaTexto(fechaInicio), FechaTexto(fechaFin)))
  {
    EnteroTextoSinOrdinal(curso);
    FechaTextoSinEspacios(fechaInicio);
    DescripcionSepara(EnteroTexto(curso), tipo, FechaTexto(fechaInicio), FechaTexto(fechaFin));
  }

  /** The reader splits the pieces of a description apart, whatever the date texts, when they are delimiter-free. */
  lemma DescripcionSepara(e: string, tipo: TipoPeriodo, f1: string, f2: string)
    requires 'º' !in e && ' ' !in f1
    ensures LeerDescripcion(e + "º " + ToLower(tipo.Nombre()) + " (" + (f1 + " - " + f2) + ")")
      == Some((e, tipo, f1, f2))
  {
    var l, fechas := ToLower(tipo.Nombre()), f1 + " - " + f2;
    var resto := " " + l + " (" + fechas + ")";
    TrasOrdinal(e, l, fechas);
    FirstIndexTrasPrefijo(e, 'º', resto);
    TipoYFechasSeparan(tipo, f1, f2);
  }

  lemma TrasOrdinal(e: string, l: string, fechas: string)
    ensures e + "º " + l + " (" + fechas + ")" == e + ['º'] + (" " + l + " (" + fechas + ")")
  {
  }

  lemma TipoYFechasSeparan(tipo: TipoPeriodo, f1: string, f2: string)
    requires ' ' !in f1
    ensures LeerTipoYFechas(" " + ToLower(tipo.Nombre()) + " (" + (f1 + " - " + f2) + ")") == Some((tipo, f1, f2))
  {
    TipoEnDescripcion(tipo, ToLower(tipo.Nombre()), f1 + " - " + f2);
    FechasSeparan(f1, f2);
  }

  lemma FechasSeparan(f1: string, f2: string)
    requires ' ' !in f1
    ensures LeerFechas(f1 + " - " + f2) == Some((f1, f2))
  {
    assert f1 + " - " + f2 == f1 + [' '] + ("- " + f2);
    FirstIndexTrasPrefijo(f1, ' ', "- " + f2);
  }

  /** After "º", the kind sits between a space and " (", and the dates between "(" and the final ")". */
  lemma TipoEnDescripcion(tipo: TipoPeriodo, l: string, fechas: string)
    requires l == ToLower(tipo.Nombre())
    ensures var resto := " " + l + " (" + fechas + ")";
      '(' in resto && FirstIndex(resto, '(') == |l| + 2 && resto[1..|l| + 1] == l
      && resto[|l| + 3..|resto| - 1] == fechas && LeerTipo(l) == Some(tipo)
  {
    NombreEnMinusculas(tipo);
    ParentesisTrasNombre(l, fechas);
  }

  /** The lower-case name of a kind has no parenthesis and names that kind. */
  lemma NombreEnMinusculas(tipo: TipoPeriodo)
    ensures '(' !in ToLower(tipo.Nombre()) && LeerTipo(ToLower(tipo.Nombre())) == Some(tipo)
  {
    match tipo
    case ORDINARIO => OrdinarioEnMinusculas();
    case EXTRAORDINARIO => ExtraordinarioEnMinusculas();
  }

  lemma ParentesisTrasNombre(l: string, fechas: string)
    requires '(' !in l
    ensures var resto := " " + l + " (" + fechas + ")";
      '(' in resto && FirstIndex(resto, '(') == |l| + 2 && resto[1..|l| + 1] == l
      && resto[|l| + 3..|resto| - 1] == fechas
  {
    var cabeza := " " + l + " ";
    assert '(' !in cabeza;
    var resto := " " + l + " (" + fechas + ")";
    assert resto == cabeza + ['('] + (fechas + ")");
    FirstIndexTrasPrefijo(cabeza, '(', fechas + ")");
  }

  lemma EnteroTextoSinOrdinal(n: Option<int>)
    ensures 'º' !in EnteroTexto(n)
  {
    if n.Some? {
      var t := IntToString(n.value);
      IntToStringNumerico(n.value);
      assert forall i :: 0 <= i < |t| ==> t[i] != 'º';
    }
  }

  lemma FechaTextoSinEspacios(f: Option<Fecha>)
    ensures ' ' !in FechaTexto(f)
  {
    if f.Some? {
      var t := FechaIso(f.value);
      FechaIsoNumerica(f.value);
      assert forall i :: 0 <= i < |t| ==> t[i] != ' ';
    }
  }

  /** Illustration of DescripcionCompletaRoundTrip: a second-year ordinary period whose dates are not set. */
  lemma DescripcionCompletaEjemplo()
    ensures DescripcionCompleta(Some(2), ORDINARIO, None, None) == "2º ordinario (null - null)"
  {
    PiezasEjemplo();
    OrdinarioEnMinusculas();
    assert DescripcionCompleta(Some(2), ORDINARIO, None, None) == "2º " + ("ordinario" + " (" + "null - null" + ")");
    UnionEjemplo();
  }

  lemma PiezasEjemplo()
    ensures EnteroTexto(Some(2)) + "º " == "2º "
    ensures FechaTexto(None) + " - " + FechaTexto(None) == "null - null"
  {
    assert NatToString(2) == [DigitChar(2)];
  }

  lemma UnionEjemplo()
    ensures "2º " + ("ordinario" + " (" + "null - null" + ")") == "2º ordinario (null - null)"
  {
  }

  /** Estudiante/TutorEmpresa.getNombreCompleto: first name, a space, surnames. */
  function NombreCompleto(nombre: Option<string>, apellidos: Option<string>): string
  {
    Str(nombre) + " " + Str(apellidos)
  }

  /** The full name splits back at its first space when the first name has none. */
  lemma NombreCompletoSeSepara(nombre: string, apellidos: string)
    requires ' ' !in nombre
    ensures var s := NombreCompleto(Some(nombre), Some(apellidos));
      |nombre| < |s| && s[|nombre|] == ' ' && ' ' !in s[..|nombre|]
      && s[..|nombre|] == nombre && s[|nombre| + 1..] == apellidos
  {
    var s := NombreCompleto(Some(nombre), Some(apellidos));
    assert s == nombre + " " + apellidos;
    assert s[..|nombre|] == nombre;
  }

  // ---------------------------------------------------------------- documents

  /**
   * The extension part of Documento.generarNombreAlmacenado: from the last '.'
   * to the end, dot included, when that dot is not the first character.
   */
  function ExtensionAlmacenada(nombre: string): (r: string)
    ensures r != "" ==> r[0] == '.' && '.' !in r[1..]
    ensures r != "" ==> |r| < |nombre| && r == nombre[|nombre| - |r|..]
    ensures r == "" <==> LastIndexOf(nombre, '.') <= 0
  {
    var i := LastIndexOf(nombre, '.');
    if i > 0 then
      var r := nombre[i..];
      assert |nombre| - |r| == i && r[0] == '.';
      assert '.' !in r[1..] by {
        forall j | 0 <= j < |r[1..]| ensures r[1..][j] != '.' { assert r[1..][j] == nombre[i + 1 + j]; }
      }
      r
    else ""
  }

  /** The stored name: the unique prefix (clock and random part) followed by the extension. */
  function NombreAlmacenado(prefijoUnico: string, nombre: string): (r: string)
    ensures |r| >= |prefijoUnico| && r[..|prefijoUnico|] == prefijoUnico
    ensures r[|prefijoUnico|..] == ExtensionAlmacenada(nombre)
  {
    prefijoUnico + ExtensionAlmacenada(nombre)
  }

  /** Documento.getExtension: the text after the last '.' in upper case, when that dot is not the first character. */
  function Extension(nombre: string): string
  {
    var i := LastIndexOf(nombre, '.');
    if i > 0 then ToUpper(nombre[i + 1..]) else ""
  }

  /** The displayed extension is the stored one without its dot, in upper case. */
  lemma ExtensionComoAlmacenada(nombre: string)
    ensures ExtensionAlmacenada(nombre) == "" ==> Extension(nombre) == ""
    ensures ExtensionAlmacenada(nombre) != "" ==> Extension(nombre) == ToUpper(ExtensionAlmacenada(nombre)[1..])
  {
    var i := LastIndexOf(nombre, '.');
    if i > 0 {
      assert nombre[i..][1..] == nombre[i + 1..];
    }
  }

  /** Illustration of ExtensionAlmacenada: "a.b.pdf" has extension "PDF" and keeps ".pdf"; "README" and ".bashrc" have none. */
  lemma ExtensionEjemplos()
    ensures Extension("a.b.pdf") == "PDF" && ExtensionAlmacenada("a.b.pdf") == ".pdf"
    ensures Extension("README") == "" && ExtensionAlmacenada("README") == ""
    ensures Extension(".bashrc") == "" && ExtensionAlmacenada(".bashrc") == ""
  {
    ExtensionPdf();
    assert '.' !in "README" by { assert LastIndexOf("README", '.') == -1; }
    assert LastIndexOf(".bashrc", '.') == 0 by { assert '.' !in ".bashrc"[1..]; }
  }

  lemma ExtensionPdf()
    ensures Extension("a.b.pdf") == "PDF" && ExtensionAlmacenada("a.b.pdf") == ".pdf"
  {
    assert LastIndexOf("a.b.pdf", '.') == 3 by { assert "a.b.pdf"[3] == '.'; assert '.' !in "a.b.pdf"[4..]; }
    assert "a.b.pdf"[4..] == "pdf";
    assert ToUpper("pdf") == "PDF";
  }

  /** What getTamanoFormateado shows: an exact byte count, or a number of KB or MB (printed with one decimal). */
  datatype Tamano = Bytes(texto: string) | Kilobytes(valor: real) | Megabytes(valor: real)

  /**
   * Documento.getTamanoFormateado: "0 B" without a size, "<n> B" below 1024,
   * kilobytes below 1024 * 1024 and megabytes from there on.
   */
  function TamanoFormateado(tamano: Option<int>): (r: Tamano)
    ensures tamano.None? ==> r == Bytes("0 B")
    ensures tamano.Some? && tamano.value < 1024 ==> r == Bytes(IntToString(tamano.value) + " B")
    ensures tamano.Some? && 1024 <= tamano.value < 1024 * 1024 ==>
      r.Kilobytes? && 1.0 <= r.valor < 1024.0 && r.valor * 1024.0 == tamano.value as real
    ensures tamano.Some? && tamano.value >= 1024 * 1024 ==>
      r.Megabytes? && 1.0 <= r.valor && r.valor * 1048576.0 == tamano.value as real
  {
    if tamano.None? then Bytes("0 B")
    else if tamano.value < 1024 then Bytes(IntToString(tamano.value) + " B")
    else if tamano.value < 1024 * 1024 then Kilobytes(tamano.value as real / 1024.0)
    else Megabytes(tamano.value as real / (1024.0 * 1024.0))
  }

  // ---------------------------------------------------------------- cancellation note

  const PrefijoCancelacion := "CANCELACIÓN: "

  /**
   * The notes after a cancellation: the old notes and a line break when there
   * were notes, then "CANCELACIÓN: " and the reason as typed.
   */
  function NotaCancelacion(observaciones: Option<string>, motivo: string): string
  {
    (if observaciones.Some? then observaciones.value + "\n" else "") + PrefijoCancelacion + motivo
  }

  /** The old notes survive as a prefix, on their own line, and the reason closes the note. */
  lemma NotaCancelacionConserva(observaciones: Option<string>, motivo: string)
    ensures var n := NotaCancelacion(observaciones, motivo);
      var k := if observaciones.Some? then |observaciones.value| + 1 else 0;
      |n| == k + |PrefijoCancelacion| + |motivo|
      && (observaciones.Some? ==> n[..|observaciones.value|] == observaciones.value && n[|observaciones.value|] == '\n')
      && n[k..k + |PrefijoCancelacion|] == PrefijoCancelacion
      && n[k + |PrefijoCancelacion|..] == motivo
  {
    var n := NotaCancelacion(observaciones, motivo);
    if observaciones.Some? {
      var o := observaciones.value;
      assert n == o + ("\n" + PrefijoCancelacion + motivo);
      assert n[..|o|] == o;
    }
  }
}
