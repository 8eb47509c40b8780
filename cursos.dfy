/**
 * CursoAcademicoService.activarCurso: the sweep that leaves exactly one
 * academic year active. The repository's findAll is the sequence of stored
 * years, and the store after the call is returned as a new sequence. Saving
 * a year the sweep already changed in place adds nothing; the final save of
 * the target adds it to the store when it is not there yet.
 */
module CursoAcademicoServicio {
  import opened Base
  import opened Modelo

  /** The stored years whose flag is true. */
  function Activos(cursos: seq<CursoAcademico>): set<CursoAcademico>
    reads cursos
  {
    set c | c in cursos && c.activo == Some(true)
  }

  /**
   * activarCurso: every stored year is switched off, one after the other, and
   * then `x` is switched on and saved, which stores it when it was not stored.
   * The store `nuevo` then has exactly one active year, the target.
   */
  method ActivarCurso(todos: seq<CursoAcademico>, x: CursoAcademico) returns (nuevo: seq<CursoAcademico>)
    modifies todos`activo, x`activo
    ensures nuevo == if x in todos then todos else todos + [x]
    ensures forall c :: c in nuevo ==> c.activo == Some(c == x)
    ensures forall c :: c in todos ==> c.nombre == old(c.nombre) && c.descripcion == old(c.descripcion)
    ensures Activos(nuevo) == {x}
  {
    var i := 0;
    while i < |todos|
      invariant 0 <= i <= |todos|
      invariant forall k :: 0 <= k < i ==> todos[k].activo == Some(false)
      modifies todos`activo
    {
      todos[i].SetActivo(Some(false));
      i := i + 1;
    }
    x.SetActivo(Some(true));
    nuevo := if x in todos then todos else todos + [x];
  }

  /**
   * The sweep keeps the column constraints: it touches no name or description
   * and every flag it writes is present. The new store meets them whenever the
   * target was stored, or fits its columns and brings a name not yet taken;
   * either way exactly one year is active.
   */
  method ActivarCursoConservaRestricciones(todos: seq<CursoAcademico>, x: CursoAcademico)
    returns (nuevo: seq<CursoAcademico>)
    requires CursosValidos(todos)
    modifies todos`activo, x`activo
    ensures CursosValidos(todos)
    ensures x in todos ==> CursosValidos(nuevo)
    ensures (x !in todos && x.nombre.Some? && |x.nombre.value| <= 9 && CabeEn(x.descripcion, 500)
             && forall c :: c in todos ==> c.nombre != x.nombre) ==> CursosValidos(nuevo)
    ensures |Activos(nuevo)| == 1
  {
    nuevo := ActivarCurso(todos, x);
  }
}
