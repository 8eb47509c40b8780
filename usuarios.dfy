/**
 * UsuarioService: the session holder. `usuarios` stands for the contents of
 * UsuarioRepository; `usuarioActual` is the user logged in, or null.
 */
module UsuarioServicio {
  import opened Base
  import opened Fechas
  import opened Valores
  import opened Modelo

  /**
   * findByEmailAndPassword: both columns equal the arguments. A null argument
   * becomes `IS NULL` in a derived query, which Option equality also gives.
   */
  predicate Credenciales(u: Usuario, email: Option<string>, password: Option<string>)
    reads u
  {
    u.email == email && u.password == password
  }

  /** The position of the first user with these credentials, or |s| when there is none. */
  function BuscarCredenciales(s: seq<Usuario>, email: Option<string>, password: Option<string>): (k: nat)
    reads s
    ensures k <= |s|
    ensures forall i :: 0 <= i < k ==> !Credenciales(s[i], email, password)
    ensures k < |s| ==> Credenciales(s[k], email, password)
  {
    if s == [] then 0
    else if Credenciales(s[0], email, password) then 0
    else 1 + BuscarCredenciales(s[1..], email, password)
  }

  /** A repository answer of Optional type: at most one stored user has these credentials. */
  predicate CredencialesUnicas(s: seq<Usuario>, email: Option<string>, password: Option<string>)
    reads s
  {
    forall i, j :: 0 <= i < j < |s| && Credenciales(s[i], email, password) ==> !Credenciales(s[j], email, password)
  }

  /** findByRolAndActivoTrue(DOCENTE). */
  predicate EsDocenteActivo(u: Usuario)
    reads u
  {
    u.rol == Some(DOCENTE) && u.activo == Some(true)
  }

  /** findDocentes: the active teachers, in stored order. */
  function Docentes(usuarios: seq<Usuario>): (r: seq<Usuario>)
    reads usuarios
    ensures forall i :: 0 <= i < |r| ==> r[i] in usuarios && EsDocenteActivo(r[i])
    ensures forall i :: 0 <= i < |usuarios| && EsDocenteActivo(usuarios[i]) ==> usuarios[i] in r
    ensures EsSubsecuencia(r, usuarios)
  {
    if usuarios == [] then []
    else
      var resto := Docentes(usuarios[1..]);
      assert usuarios == [usuarios[0]] + usuarios[1..];
      if EsDocenteActivo(usuarios[0]) then
        assert ([usuarios[0]] + resto)[1..] == resto;
        [usuarios[0]] + resto
      else resto
  }

  class UsuarioService {
    var usuarios: seq<Usuario>
    var usuarioActual: Usuario?

    /** A fresh service over the stored users: nobody is logged in. */
    constructor (usuarios: seq<Usuario>)
      ensures this.usuarios == usuarios && usuarioActual == null
    {
      this.usuarios := usuarios;
      usuarioActual := null;
    }

    function GetUsuarioActual(): (u: Usuario?)
      reads this
      ensures u == usuarioActual
    {
      usuarioActual
    }

    method SetUsuarioActual(u: Usuario?)
      modifies this`usuarioActual
      ensures GetUsuarioActual() == u
    {
      usuarioActual := u;
    }

    method Logout()
      modifies this`usuarioActual
      ensures GetUsuarioActual() == null
    {
      usuarioActual := null;
    }

    /**
     * autenticar: the user whose email and password are exactly the given
     * ones, when it is active, gets its last access stamped, becomes the
     * session's user and is returned. Otherwise the answer is null and the
     * session and every user are as before. `getActivo()` is unboxed, so the
     * matching user must have the flag set.
     */
    method Autenticar(email: Option<string>, password: Option<string>, ahora: Instante) returns (u: Usuario?)
      requires CredencialesUnicas(usuarios, email, password)
      requires forall i :: 0 <= i < |usuarios| && Credenciales(usuarios[i], email, password) ==> usuarios[i].activo.Some?
      modifies this`usuarioActual, usuarios`ultimoAcceso
      ensures u != null <==>
        exists i :: 0 <= i < |usuarios| && Credenciales(usuarios[i], email, password) && usuarios[i].activo == Some(true)
      ensures u != null ==> u in usuarios && Credenciales(u, email, password) && u.activo == Some(true)
      ensures u != null ==> u.ultimoAcceso == Some(ahora) && GetUsuarioActual() == u
      ensures u == null ==> usuarioActual == old(usuarioActual)
      ensures forall v :: v in usuarios && v != u ==> v.ultimoAcceso == old(v.ultimoAcceso)
    {
      var k := BuscarCredenciales(usuarios, email, password);
      if k < |usuarios| && usuarios[k].activo.value {
        u := usuarios[k];
        u.ultimoAcceso := Some(ahora);
        usuarioActual := u;
      } else {
        u := null;
      }
    }
  }

  /** A login followed by a logout leaves nobody in the session, whoever logged in. */
  method LoginYLogout(s: UsuarioService, email: Option<string>, password: Option<string>, ahora: Instante)
    requires CredencialesUnicas(s.usuarios, email, password)
    requires forall i :: 0 <= i < |s.usuarios| && Credenciales(s.usuarios[i], email, password) ==> s.usuarios[i].activo.Some?
    modifies s`usuarioActual, s.usuarios`ultimoAcceso
    ensures s.GetUsuarioActual() == null
  {
    var u := s.Autenticar(email, password, ahora);
    s.Logout();
  }

  /** A user with credentials that nobody else shares, but inactive, cannot open a session. */
  method LoginInactivo(s: UsuarioService, v: Usuario, ahora: Instante)
    requires v in s.usuarios && v.activo == Some(false)
    requires CredencialesUnicas(s.usuarios, v.email, v.password)
    modifies s`usuarioActual, s.usuarios`ultimoAcceso
    ensures s.GetUsuarioActual() == old(s.usuarioActual)
  {
    var u := s.Autenticar(v.email, v.password, ahora);
    assert u == null;
  }
}
