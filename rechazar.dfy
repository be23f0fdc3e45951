/** `POST /api/inscripciones/rechazar`
    (`src/routes/api/inscripciones/rechazar/+server.ts`): an administrator
    rejects the artistic registration whose id the JSON body carries. The
    handler is split into the checks made before the rejecting service is
    called and the mapping of that service's outcome to the response. */
module Rechazar {
  import opened Common
  import opened Domain
  import Db
  import InscripcionesArtisticas

  /** The JSON response. */
  datatype Respuesta<T> = Respuesta(status: int, success: bool, inscripcion: Option<T>, error: Option<string>)

  /** What the handler does after its checks: answer at once, or call the
      service with this id. */
  datatype Paso<T> = Responder(respuesta: Respuesta<T>) | Llamar(id: int)

  const SinPermisos := "No tiene permisos para realizar esta acción"
  const IdInvalido := "ID de inscripción inválido"
  const NoEncontrada := "Inscripción no encontrada"

  function Fallo<T>(status: int, mensaje: string): Respuesta<T>
  {
    Respuesta(status, false, None, Some(mensaje))
  }

  /** The checks up to the service call. `cuerpo` is the outcome of
      `request.json()`, `parseInt` stands for `parseInt` applied to `data.id`
      (`None` for `NaN`, `undefined` being passed as `None`), and
      `errorNulo` is the message of the error raised by reading `id` of a
      `null` body. */
  function Verificar<T>(usuario: Option<User>, cuerpo: Db.Outcome<Json>, parseInt: Option<Json> -> Option<int>,
                        errorNulo: string): (p: Paso<T>)
    ensures (usuario.None? || !usuario.value.esAdmin) ==> p == Responder(Fallo(403, SinPermisos))
    ensures p.Llamar? <==>
              usuario.Some? && usuario.value.esAdmin && cuerpo.Done? && cuerpo.value != JNull &&
              parseInt(Prop(cuerpo.value, "id").value).Some?
    ensures p.Llamar? ==> p.id == parseInt(Prop(cuerpo.value, "id").value).value
    ensures p.Responder? ==> (!p.respuesta.success && p.respuesta.inscripcion.None? &&
                              p.respuesta.status in {400, 403, 500})
  {
    if usuario.None? || !usuario.value.esAdmin then Responder(Fallo(403, SinPermisos))
    else if cuerpo.Threw? then Responder(Fallo(500, cuerpo.error))
    else
      var id := Prop(cuerpo.value, "id");
      if id.None? then Responder(Fallo(500, errorNulo))
      else
        var n := parseInt(id.value);
        if n.None? then Responder(Fallo(400, IdInvalido))
        else Llamar(n.value)
  }

  /** The response for the service's outcome: `undefined` is 404, a record
      is 200 with it, and a thrown error is 500 with its message. */
  function Resultado<T>(servicio: Db.Outcome<Option<T>>): (r: Respuesta<T>)
    ensures r.success <==> r.status == 200
    ensures r.status == 200 <==> servicio.Done? && servicio.value.Some?
    ensures r.status == 200 ==> r.inscripcion == servicio.value && r.error.None?
    ensures servicio == Db.Done(None) ==> r == Fallo(404, NoEncontrada)
    ensures servicio.Threw? ==> r == Fallo(500, servicio.error)
  {
    match servicio
    case Threw(e) => Fallo(500, e)
    case Done(None) => Fallo(404, NoEncontrada)
    case Done(Some(x)) => Respuesta(200, true, Some(x), None)
  }

  /** The whole handler over a service given as a function of the id. */
  function Post<T>(usuario: Option<User>, cuerpo: Db.Outcome<Json>, parseInt: Option<Json> -> Option<int>,
                   errorNulo: string, servicio: int -> Db.Outcome<Option<T>>): (r: Respuesta<T>)
    ensures r.success ==> usuario.Some? && usuario.value.esAdmin
    ensures r.status == 404 ==> r == Fallo(404, NoEncontrada)
  {
    match Verificar(usuario, cuerpo, parseInt, errorNulo)
    case Responder(resp) => resp
    case Llamar(id) => Resultado(servicio(id))
  }

  /** A missing or non-administrator user is refused with 403 whatever the
      body and whatever the service would do. */
  lemma SinPermisoEsSiempre403<T>(usuario: Option<User>, c1: Db.Outcome<Json>, c2: Db.Outcome<Json>,
                                  p1: Option<Json> -> Option<int>, p2: Option<Json> -> Option<int>,
                                  e1: string, e2: string,
                                  s1: int -> Db.Outcome<Option<T>>, s2: int -> Db.Outcome<Option<T>>)
    requires usuario.None? || !usuario.value.esAdmin
    ensures Post(usuario, c1, p1, e1, s1) == Post(usuario, c2, p2, e2, s2) == Fallo(403, SinPermisos)
  {
  }

  /** A body whose `id` does not parse as a number gives 400 to an
      administrator, and the service is not consulted. */
  lemma IdNoNumericoEs400<T>(u: User, data: Json, parseInt: Option<Json> -> Option<int>, e: string,
                             s1: int -> Db.Outcome<Option<T>>, s2: int -> Db.Outcome<Option<T>>)
    requires u.esAdmin && data != JNull
    requires parseInt(Prop(data, "id").value).None?
    ensures Post(Some(u), Db.Done(data), parseInt, e, s1) == Post(Some(u), Db.Done(data), parseInt, e, s2) ==
            Fallo(400, IdInvalido)
  {
  }

  /** The rejection itself against the registration store: after the
      checks, `rechazarInscripcionArtistica(id)` sets the record's state to
      rejected, and its outcome makes the response. */
  method PostEn(store: InscripcionesArtisticas.Store, usuario: Option<User>, cuerpo: Db.Outcome<Json>,
                parseInt: Option<Json> -> Option<int>, errorNulo: string,
                ahoraIso: string, falla: InscripcionesArtisticas.Falla, error: string, errorJson: Json,
                logOk: bool)
    returns (r: Respuesta<InscripcionesArtisticas.Ficha>)
    requires store.Valid()
    modifies store
    ensures store.Valid()
    ensures Verificar<InscripcionesArtisticas.Ficha>(usuario, cuerpo, parseInt, errorNulo).Responder? ==>
              r == Verificar<InscripcionesArtisticas.Ficha>(usuario, cuerpo, parseInt, errorNulo).respuesta &&
              store.registros == old(store.registros) && store.logs == old(store.logs) &&
              store.integrantes == old(store.integrantes) && store.nextId == old(store.nextId)
    ensures Verificar<InscripcionesArtisticas.Ficha>(usuario, cuerpo, parseInt, errorNulo).Llamar? ==>
              var id := Verificar<InscripcionesArtisticas.Ficha>(usuario, cuerpo, parseInt, errorNulo).id;
              (r.status == 404 <==> !falla.FallaLectura? && old(store.GetById(id)).None?) &&
              (r.status == 200 ==> r.inscripcion.Some? && r.inscripcion.value.estado == Rechazado)
    ensures Verificar<InscripcionesArtisticas.Ficha>(usuario, cuerpo, parseInt, errorNulo).Llamar? ==>
              store.integrantes == old(store.integrantes) && store.nextId == old(store.nextId)
    ensures Verificar<InscripcionesArtisticas.Ficha>(usuario, cuerpo, parseInt, errorNulo).Llamar? && r.status == 200 ==>
              var id := Verificar<InscripcionesArtisticas.Ficha>(usuario, cuerpo, parseInt, errorNulo).id;
              old(store.GetById(id)).Some? &&
              InscripcionesArtisticas.Reemplazado(old(store.registros), store.registros, id,
                old(store.GetById(id)).value.(estado := Rechazado,
                                             fechaModificacion := InscripcionesArtisticas.MysqlTimestamp(ahoraIso)))
  {
    var paso := Verificar<InscripcionesArtisticas.Ficha>(usuario, cuerpo, parseInt, errorNulo);
    if paso.Responder? {
      return paso.respuesta;
    }
    var servicio := store.CambiarEstado(paso.id, Rechazado, ahoraIso, falla, error, errorJson, logOk);
    r := Resultado(servicio);
  }
}
