/** `GET /api/inscripciones/listar` (`src/routes/api/inscripciones/listar/+server.ts`):
    the session's user sees every artistic registration when an
    administrator, those of their own discipline otherwise, each projected
    to thirteen fields with its discipline's name. The table is the list of
    stored `Registro`s, in storage order, and the `disciplinas` relation a
    map from discipline id to name. */
module Listar {
  import opened Common
  import opened Domain
  import opened InscripcionesArtisticas

  /** The object `formatearInscripcion` builds. */
  datatype Resumen = Resumen(
    id: int,
    nombre: Option<string>,
    disciplinaId: Option<int>,
    disciplina: string,
    email: Option<string>,
    telefono: Option<string>,
    descripcion: Option<string>,
    tipoContenido: Option<TipoContenido>,
    linkContenido: Option<string>,
    archivoContenido: Option<string>,
    estado: Estado,
    fechaCreacion: int,
    fechaModificacion: string)

  /** The response: its status and either the listing or the error text
      with its details. */
  datatype Respuesta = Respuesta(status: int, inscripciones: seq<Resumen>, error: Option<string>, detalles: Option<string>)

  const NoAutorizado := "No autorizado"
  const ErrorListado := "Error al obtener las inscripciones"

  /** `formatearInscripcion(r, nombre)`: the stored columns unchanged, except
      that an empty or missing description or content link or file name is
      dropped. */
  function Resumir(r: Registro, nombre: string): (s: Resumen)
    ensures s.id == r.id && s.nombre == r.nombre && s.disciplinaId == r.disciplinaId && s.disciplina == nombre
    ensures s.email == r.email && s.telefono == r.telefono && s.tipoContenido == r.tipoContenido
    ensures s.estado == r.estado && s.fechaCreacion == r.fechaCreacion && s.fechaModificacion == r.fechaModificacion
    ensures s.descripcion.Some? <==> r.descripcion.Some? && r.descripcion.value != ""
    ensures s.descripcion.Some? ==> s.descripcion == r.descripcion
    ensures s.linkContenido.Some? <==> r.linkContenido.Some? && r.linkContenido.value != ""
    ensures s.linkContenido.Some? ==> s.linkContenido == r.linkContenido
    ensures s.archivoContenido.Some? <==> r.archivoContenido.Some? && r.archivoContenido.value != ""
    ensures s.archivoContenido.Some? ==> s.archivoContenido == r.archivoContenido
  {
    Resumen(r.id, r.nombre, r.disciplinaId, nombre, r.email, r.telefono,
            NonEmpty(r.descripcion), r.tipoContenido, NonEmpty(r.linkContenido),
            NonEmpty(r.archivoContenido), r.estado, r.fechaCreacion, r.fechaModificacion)
  }

  /** The registration has a related discipline row (`insc.disciplinas` is
      not `null`). */
  predicate ConRelacion(r: Registro, disciplinas: map<int, string>)
  {
    r.disciplinaId.Some? && r.disciplinaId.value in disciplinas
  }

  /** The `map` over the query's rows: `None` when some row has no related
      discipline, since reading `.nombre` of `null` throws. */
  function ResumirTodos(rs: seq<Registro>, disciplinas: map<int, string>): (s: Option<seq<Resumen>>)
    ensures s.Some? <==> forall i :: 0 <= i < |rs| ==> ConRelacion(rs[i], disciplinas)
    ensures s.Some? ==> (|s.value| == |rs| &&
      forall i :: 0 <= i < |rs| ==> s.value[i] == Resumir(rs[i], disciplinas[rs[i].disciplinaId.value]))
  {
    if rs == [] then Some([])
    else
      var init := rs[..|rs| - 1];
      var last := rs[|rs| - 1];
      assert forall i :: 0 <= i < |rs| - 1 ==> init[i] == rs[i];
      var prev := ResumirTodos(init, disciplinas);
      if prev.Some? && ConRelacion(last, disciplinas) then
        Some(prev.value + [Resumir(last, disciplinas[last.disciplinaId.value])])
      else None
  }

  function DeDisciplinaId(d: int): Registro -> bool
  {
    (r: Registro) => r.disciplinaId == Some(d)
  }

  /** The handler. `usuario` is `locals.user`; `queryOk` says whether the
      `findMany` succeeds, `errorQuery` is its error's message and
      `errorRelacion` the message of the error a missing relation raises. */
  function Get(usuario: Option<User>, tabla: seq<Registro>, disciplinas: map<int, string>,
               queryOk: bool, errorQuery: string, errorRelacion: string): (r: Respuesta)
    ensures usuario.None? ==> r == Respuesta(401, [], Some(NoAutorizado), None)
    ensures usuario.Some? && !usuario.value.esAdmin && !TruthyInt(usuario.value.disciplinaId) ==>
              r == Respuesta(200, [], None, None)
    ensures r.status == 200 || r.status == 401 || r.status == 500
    ensures r.status == 500 ==> (r.error == Some(ErrorListado) && r.inscripciones == [] &&
              (r.detalles == Some(errorQuery) || r.detalles == Some(errorRelacion)))
    ensures r.status == 200 ==> r.error.None? && r.detalles.None?
  {
    if usuario.None? then Respuesta(401, [], Some(NoAutorizado), None)
    else
      var u := usuario.value;
      if !u.esAdmin && !TruthyInt(u.disciplinaId) then Respuesta(200, [], None, None)
      else if !queryOk then Respuesta(500, [], Some(ErrorListado), Some(errorQuery))
      else
        var filas := if u.esAdmin then tabla else Filter(tabla, DeDisciplinaId(u.disciplinaId.value));
        var s := ResumirTodos(filas, disciplinas);
        if s.None? then Respuesta(500, [], Some(ErrorListado), Some(errorRelacion))
        else Respuesta(200, s.value, None, None)
  }

  /** An administrator gets every stored registration, projected, in
      storage order and without sorting, as long as the query succeeds and
      every row has its discipline. */
  lemma AdminVeTodo(u: User, tabla: seq<Registro>, disciplinas: map<int, string>, eq: string, er: string)
    requires u.esAdmin
    requires forall i :: 0 <= i < |tabla| ==> ConRelacion(tabla[i], disciplinas)
    ensures var r := Get(Some(u), tabla, disciplinas, true, eq, er);
      r.status == 200 && |r.inscripciones| == |tabla| &&
      forall i :: 0 <= i < |tabla| ==>
        r.inscripciones[i] == Resumir(tabla[i], disciplinas[tabla[i].disciplinaId.value])
  {
  }

  /** A user of a discipline gets exactly the projections of that
      discipline's registrations, in storage order. */
  lemma DisciplinaVeLoSuyo(u: User, tabla: seq<Registro>, disciplinas: map<int, string>, eq: string, er: string)
    requires !u.esAdmin && TruthyInt(u.disciplinaId)
    requires forall i :: 0 <= i < |tabla| && tabla[i].disciplinaId == u.disciplinaId ==> tabla[i].disciplinaId.value in disciplinas
    ensures var r := Get(Some(u), tabla, disciplinas, true, eq, er);
      var mias := Filter(tabla, DeDisciplinaId(u.disciplinaId.value));
      r.status == 200 && |r.inscripciones| == |mias| &&
      (forall i :: 0 <= i < |mias| ==> r.inscripciones[i] == Resumir(mias[i], disciplinas[mias[i].disciplinaId.value])) &&
      (forall x :: x in r.inscripciones ==> x.disciplinaId == u.disciplinaId) &&
      (forall j :: 0 <= j < |tabla| && tabla[j].disciplinaId == u.disciplinaId ==>
         Resumir(tabla[j], disciplinas[tabla[j].disciplinaId.value]) in r.inscripciones)
  {
    var d := u.disciplinaId.value;
    var mias := Filter(tabla, DeDisciplinaId(d));
    FilterMembership(tabla, DeDisciplinaId(d));
    forall i | 0 <= i < |mias|
      ensures ConRelacion(mias[i], disciplinas) && mias[i].disciplinaId == Some(d)
    {
      assert mias[i] in tabla && DeDisciplinaId(d)(mias[i]);
      var j :| 0 <= j < |tabla| && tabla[j] == mias[i];
    }
    var s := ResumirTodos(mias, disciplinas);
    var r := Get(Some(u), tabla, disciplinas, true, eq, er);
    assert r == Respuesta(200, s.value, None, None);
    forall x | x in r.inscripciones
      ensures x.disciplinaId == u.disciplinaId
    {
      var i :| 0 <= i < |mias| && r.inscripciones[i] == x;
    }
    forall j | 0 <= j < |tabla| && tabla[j].disciplinaId == u.disciplinaId
      ensures Resumir(tabla[j], disciplinas[d]) in r.inscripciones
    {
      assert tabla[j] in mias;
      var i :| 0 <= i < |mias| && mias[i] == tabla[j];
      assert r.inscripciones[i] == Resumir(tabla[j], disciplinas[d]);
    }
  }

  /** A failed query, or one row of the listing without its discipline,
      turns the whole answer into the 500 error: nothing is listed. */
  lemma FalloSinListado(u: User, tabla: seq<Registro>, disciplinas: map<int, string>, eq: string, er: string, i: int)
    requires u.esAdmin
    requires 0 <= i < |tabla| && !ConRelacion(tabla[i], disciplinas)
    ensures Get(Some(u), tabla, disciplinas, true, eq, er) == Respuesta(500, [], Some(ErrorListado), Some(er))
    ensures Get(Some(u), tabla, disciplinas, false, eq, er) == Respuesta(500, [], Some(ErrorListado), Some(eq))
  {
  }
}
