/** The in-memory registration table of `src/lib/inscripciones.ts`: a
    module-level array of registrations that is listed by user scope,
    searched by id, approved or rejected in place, and appended to. */
module Inscripciones {
  import opened Common
  import opened Domain

  /** The optional discipline-specific text fields of a registration
      (synopsis, duration, technique, author and referent data, ...). */
  const TextFields: set<string> := {
    "fichaArtistica", "historiaSolista", "autor", "duracion", "genero",
    "destinatarios", "sinopsis", "fechaEstreno", "numeroFunciones", "nombreGrupo",
    "historia", "descripcionMaterial", "nombreAutor", "apellidoAutor", "dniAutor",
    "tecnica", "nombreReferente", "apellidoReferente", "dniReferente"
  }

  /** One registration. Dates are instants in milliseconds; the optional
      text fields sit in `textos` (keyed by field name) and the member
      lists in `miembros` (keyed by role); a missing key is an absent field. */
  datatype Inscripcion = Inscripcion(
    id: int,
    nombre: string,
    disciplina: string,
    disciplinaId: int,
    email: string,
    telefono: string,
    descripcion: string,
    tipoContenido: TipoContenido,
    linkContenido: Option<string>,
    archivoContenido: Option<string>,
    declaracionJurada: Option<string>,
    fechaCreacion: int,
    fechaModificacion: int,
    estado: Estado,
    usuarioId: int,
    textos: map<string, string>,
    miembros: map<Role, seq<Member>>,
    esEditable: Option<bool>)

  /** The `Partial<Inscripcion>` handed to `guardarInscripcion` and
      `guardarInscripcionArtistica`. `textos` holds its other string
      fields by name, whichever they are: the upload handler passes every
      form key it does not classify through unchanged. */
  datatype Borrador = Borrador(
    nombre: Option<string>,
    disciplina: Option<string>,
    disciplinaId: Option<int>,
    email: Option<string>,
    telefono: Option<string>,
    descripcion: Option<string>,
    tipoContenido: Option<TipoContenido>,
    linkContenido: Option<string>,
    archivoContenido: Option<string>,
    declaracionJurada: Option<string>,
    usuarioId: Option<int>,
    textos: map<string, string>,
    miembros: map<Role, seq<Member>>)

  /** Sort key of every listing: the creation instant. */
  function Creacion(x: Inscripcion): int
  {
    x.fechaCreacion
  }

  /** The copy an administrator sees: editable exactly while pending. */
  function ConEditable(x: Inscripcion): Inscripcion
  {
    x.(esEditable := Some(x.estado == Pendiente))
  }

  /** Selects the registrations of one discipline. */
  function DeDisciplina(d: int): Inscripcion -> bool
  {
    (x: Inscripcion) => x.disciplinaId == d
  }

  ghost predicate UniqueIds(rows: seq<Inscripcion>)
  {
    forall i, j :: 0 <= i < j < |rows| ==> rows[i].id != rows[j].id
  }

  ghost predicate NoFlags(rows: seq<Inscripcion>)
  {
    forall i :: 0 <= i < |rows| ==> rows[i].esEditable.None?
  }

  /** `findIndex(insc => insc.id === id)`: the first position holding `id`, or -1. */
  function IndexOf(rows: seq<Inscripcion>, id: int): (k: int)
    ensures -1 <= k < |rows|
    ensures k == -1 <==> forall i :: 0 <= i < |rows| ==> rows[i].id != id
    ensures k >= 0 ==> rows[k].id == id && forall i :: 0 <= i < k ==> rows[i].id != id
  {
    if rows == [] then -1
    else if rows[0].id == id then 0
    else
      var k := IndexOf(rows[1..], id);
      if k == -1 then -1 else k + 1
  }

  /** `Math.max(...ids, 0)`. */
  function MaxIdOrZero(rows: seq<Inscripcion>): (m: int)
    ensures m >= 0
    ensures forall i :: 0 <= i < |rows| ==> rows[i].id <= m
    ensures m == 0 || exists i :: 0 <= i < |rows| && rows[i].id == m
  {
    if rows == [] then 0
    else
      var m := MaxIdOrZero(rows[1..]);
      if rows[0].id > m then rows[0].id else m
  }

  /** The record `guardarInscripcion` builds: fresh id, pending status, both
      dates set to the same instant, and the documented defaults for the
      fields that are missing or falsy in the draft. */
  function NuevaInscripcion(b: Borrador, id: int, fecha: int): (r: Inscripcion)
    ensures r.id == id && r.estado == Pendiente && r.esEditable.None?
    ensures r.fechaCreacion == fecha && r.fechaModificacion == fecha
    ensures r.nombre == (if TruthyString(b.nombre) then b.nombre.value else "Sin nombre")
    ensures r.disciplina == (if TruthyString(b.disciplina) then b.disciplina.value else "No especificada")
    ensures r.disciplinaId == (if TruthyInt(b.disciplinaId) then b.disciplinaId.value else 0)
    ensures r.email == (if TruthyString(b.email) then b.email.value else "")
    ensures r.telefono == (if TruthyString(b.telefono) then b.telefono.value else "")
    ensures r.descripcion == (if TruthyString(b.descripcion) then b.descripcion.value else "")
    ensures r.tipoContenido == (if b.tipoContenido.Some? then b.tipoContenido.value else Archivo)
    ensures r.usuarioId == (if TruthyInt(b.usuarioId) then b.usuarioId.value else 1)
    ensures r.linkContenido == b.linkContenido && r.archivoContenido == b.archivoContenido
    ensures r.declaracionJurada.None?
    ensures r.miembros == b.miembros
    ensures forall k :: k in r.textos <==> k in b.textos && k in TextFields
    ensures forall k :: k in r.textos ==> r.textos[k] == b.textos[k]
  {
    Inscripcion(
      id := id,
      nombre := OrString(b.nombre, "Sin nombre"),
      disciplina := OrString(b.disciplina, "No especificada"),
      disciplinaId := OrInt(b.disciplinaId, 0),
      email := OrString(b.email, ""),
      telefono := OrString(b.telefono, ""),
      descripcion := OrString(b.descripcion, ""),
      tipoContenido := if b.tipoContenido.Some? then b.tipoContenido.value else Archivo,
      linkContenido := b.linkContenido,
      archivoContenido := b.archivoContenido,
      declaracionJurada := None,
      fechaCreacion := fecha,
      fechaModificacion := fecha,
      estado := Pendiente,
      usuarioId := OrInt(b.usuarioId, 1),
      textos := map k | k in b.textos && k in TextFields :: b.textos[k],
      miembros := b.miembros,
      esEditable := None)
  }

  /** A record appended with an id above every stored one keeps the ids
      unique and is the one found under its id. */
  lemma AppendFresh(rows: seq<Inscripcion>, r: Inscripcion)
    requires UniqueIds(rows) && NoFlags(rows) && r.esEditable.None?
    requires forall i :: 0 <= i < |rows| ==> rows[i].id < r.id
    ensures UniqueIds(rows + [r]) && NoFlags(rows + [r])
    ensures IndexOf(rows + [r], r.id) == |rows|
  {
    var all := rows + [r];
    assert forall i :: 0 <= i < |rows| ==> all[i] == rows[i];
    assert all[|rows|] == r;
  }

  /** `mockInscripciones` together with the functions that read and
      update it. */
  class Table {
    var rows: seq<Inscripcion>

    /** Ids are unique and no stored record carries the admin-only flag. */
    ghost predicate Valid()
      reads this
    {
      UniqueIds(rows) && NoFlags(rows)
    }

    constructor (initial: seq<Inscripcion>)
      requires UniqueIds(initial) && NoFlags(initial)
      ensures Valid() && rows == initial
    {
      rows := initial;
    }

    /** `getInscripciones(usuario)`. */
    function GetInscripciones(usuario: Option<User>): (r: seq<Inscripcion>)
      reads this
      ensures usuario.None? ==> r == []
      ensures usuario.Some? && usuario.value.esAdmin ==>
                |r| == |rows| && multiset(r) == multiset(Map(rows, ConEditable)) &&
                forall x :: x in r ==> x.esEditable == Some(x.estado == Pendiente)
      ensures usuario.Some? && !usuario.value.esAdmin && TruthyInt(usuario.value.disciplinaId) ==>
                multiset(r) == multiset(Filter(rows, DeDisciplina(usuario.value.disciplinaId.value))) &&
                forall x :: x in r <==> x in rows && x.disciplinaId == usuario.value.disciplinaId.value
      ensures usuario.Some? && !usuario.value.esAdmin && !TruthyInt(usuario.value.disciplinaId) ==> r == []
      ensures usuario.Some? && !usuario.value.esAdmin && Valid() ==> forall x :: x in r ==> x.esEditable.None?
      ensures SortedDesc(r, Creacion)
    {
      if usuario.None? then []
      else if usuario.value.esAdmin then
        var all := Map(rows, ConEditable);
        var r := SortDesc(all, Creacion);
        SortDescFacts(all, Creacion);
        forall x | x in r
          ensures x.esEditable == Some(x.estado == Pendiente)
        {
          assert x in multiset(r);
          var i :| 0 <= i < |all| && all[i] == x;
        }
        r
      else if TruthyInt(usuario.value.disciplinaId) then
        var mine := Filter(rows, DeDisciplina(usuario.value.disciplinaId.value));
        var r := SortDesc(mine, Creacion);
        SortDescFacts(mine, Creacion);
        FilterMembership(rows, DeDisciplina(usuario.value.disciplinaId.value));
        forall x
          ensures x in r <==> x in rows && x.disciplinaId == usuario.value.disciplinaId.value
        {
          assert x in r <==> x in multiset(r);
          assert x in mine <==> x in multiset(mine);
          assert DeDisciplina(usuario.value.disciplinaId.value)(x) <==> x.disciplinaId == usuario.value.disciplinaId.value;
        }
        r
      else []
    }

    /** `getInscripcionPorId(id)`: the first record with that id, if any. */
    function GetInscripcionPorId(id: int): (r: Option<Inscripcion>)
      reads this
      ensures r.None? <==> forall i :: 0 <= i < |rows| ==> rows[i].id != id
      ensures r.Some? ==> r.value in rows && r.value.id == id
    {
      var k := IndexOf(rows, id);
      if k == -1 then None else Some(rows[k])
    }

    /** `generarNuevoId()`: one more than the largest id, or 1 for an empty table. */
    function GenerarNuevoId(): (r: int)
      reads this
      ensures r >= 1
      ensures forall i :: 0 <= i < |rows| ==> rows[i].id < r
      ensures r == 1 || exists i :: 0 <= i < |rows| && rows[i].id == r - 1
    {
      MaxIdOrZero(rows) + 1
    }

    /** The shared body of `aprobarInscripcion` and `rechazarInscripcion`:
        overwrite status and modification date of the record with `id`,
        whatever its current status. */
    method SetEstado(id: int, estado: Estado, ahora: int) returns (r: Option<Inscripcion>)
      requires Valid()
      modifies this
      ensures Valid()
      ensures var k := IndexOf(old(rows), id);
        if k == -1 then rows == old(rows) && r.None?
        else rows == old(rows)[k := old(rows)[k].(estado := estado, fechaModificacion := ahora)] &&
             r == Some(rows[k])
      ensures r.Some? ==> GetInscripcionPorId(id) == r && r.value.estado == estado
    {
      var k := IndexOf(rows, id);
      if k != -1 {
        rows := rows[k := rows[k].(estado := estado, fechaModificacion := ahora)];
        r := Some(rows[k]);
        assert IndexOf(rows, id) == k;
      } else {
        r := None;
      }
    }

    /** `aprobarInscripcion(id)`, with `ahora` standing for `new Date()`. */
    method AprobarInscripcion(id: int, ahora: int) returns (r: Option<Inscripcion>)
      requires Valid()
      modifies this
      ensures Valid()
      ensures var k := IndexOf(old(rows), id);
        if k == -1 then rows == old(rows) && r.None?
        else rows == old(rows)[k := old(rows)[k].(estado := Aprobado, fechaModificacion := ahora)] &&
             r == Some(rows[k])
    {
      r := SetEstado(id, Aprobado, ahora);
    }

    /** `rechazarInscripcion(id)`, with `ahora` standing for `new Date()`. */
    method RechazarInscripcion(id: int, ahora: int) returns (r: Option<Inscripcion>)
      requires Valid()
      modifies this
      ensures Valid()
      ensures var k := IndexOf(old(rows), id);
        if k == -1 then rows == old(rows) && r.None?
        else rows == old(rows)[k := old(rows)[k].(estado := Rechazado, fechaModificacion := ahora)] &&
             r == Some(rows[k])
    {
      r := SetEstado(id, Rechazado, ahora);
    }

    /** `guardarInscripcion(borrador)`: append one new pending record with a
        fresh id; `ahora` stands for `new Date()`. */
    method GuardarInscripcion(b: Borrador, ahora: int) returns (r: Inscripcion)
      requires Valid()
      modifies this
      ensures Valid()
      ensures r == NuevaInscripcion(b, old(GenerarNuevoId()), ahora)
      ensures rows == old(rows) + [r]
      ensures GetInscripcionPorId(r.id) == Some(r)
    {
      var id := GenerarNuevoId();
      r := NuevaInscripcion(b, id, ahora);
      AppendFresh(rows, r);
      rows := rows + [r];
    }
  }
}
