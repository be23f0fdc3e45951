/** The database-backed registration repository of
    `src/lib/inscripcionesArtisticas.ts`. The two tables it writes
    (`inscripciones_artisticas` and `integrantes_inscripcion`) and the log
    table are sequences of typed rows in a `Store`; each insert of the
    repository appends one row. Whether an awaited database call throws is
    an input of the operation that makes it. */
module InscripcionesArtisticas {
  import opened Common
  import opened Domain
  import Inscripciones
  import Db
  import Logging

  // ----------------------------------------------------------------------
  // Discipline names and the MySQL timestamp text

  /** The fixed id/name list that `getDisciplinaNombre` searches. */
  const Disciplinas: seq<(int, string)> := [
    (1, "Danza"), (2, "Teatro"), (3, "Música"), (4, "Letras"),
    (5, "Fotografía"), (6, "Artes Visuales"), (7, "Artes Audiovisuales")]

  /** `disciplinas.find(d => d.id === id)`, giving the name found. */
  function Buscar(ds: seq<(int, string)>, id: int): (r: Option<string>)
    ensures r.Some? <==> exists i :: 0 <= i < |ds| && ds[i].0 == id
    ensures r.Some? ==> exists i :: 0 <= i < |ds| && ds[i] == (id, r.value) &&
                                    forall j :: 0 <= j < i ==> ds[j].0 != id
  {
    if ds == [] then None
    else if ds[0].0 == id then Some(ds[0].1)
    else
      var r := Buscar(ds[1..], id);
      assert forall i :: 1 <= i < |ds| ==> ds[i] == ds[1..][i - 1];
      if r.Some? then
        ghost var i :| 0 <= i < |ds[1..]| && ds[1..][i] == (id, r.value) && forall j :: 0 <= j < i ==> ds[1..][j].0 != id;
        assert ds[i + 1] == (id, r.value);
        r
      else r
  }

  /** `getDisciplinaNombre`: the seven disciplines by id, and
      `'No especificada'` for any other id or a missing one. */
  function DisciplinaNombre(id: Option<int>): (n: string)
    ensures id == Some(1) ==> n == "Danza"
    ensures id == Some(2) ==> n == "Teatro"
    ensures id == Some(3) ==> n == "Música"
    ensures id == Some(4) ==> n == "Letras"
    ensures id == Some(5) ==> n == "Fotografía"
    ensures id == Some(6) ==> n == "Artes Visuales"
    ensures id == Some(7) ==> n == "Artes Audiovisuales"
    ensures (id.None? || id.value < 1 || id.value > 7) ==> n == "No especificada"
  {
    if id.None? then "No especificada"
    else
      var found := Buscar(Disciplinas, id.value);
      if found.Some? then found.value else "No especificada"
  }

  /** Index of the first `c` in `s`, or `|s|` when there is none. */
  function FirstIndex(s: string, c: char): (k: nat)
    ensures k <= |s|
    ensures k < |s| ==> s[k] == c
    ensures forall i :: 0 <= i < k ==> s[i] != c
  {
    if s == [] then 0
    else if s[0] == c then 0
    else 1 + FirstIndex(s[1..], c)
  }

  /** `s.replace(from, to)` with a one-character pattern: only the first
      occurrence is replaced. */
  function ReplaceFirst(s: string, from: char, to: char): (r: string)
    ensures |r| == |s|
    ensures from !in s ==> r == s
    ensures from in s ==> r == s[FirstIndex(s, from) := to]
  {
    if s == [] then s
    else if s[0] == from then [to] + s[1..]
    else [s[0]] + ReplaceFirst(s[1..], from, to)
  }

  /** `iso.slice(0, 19).replace('T', ' ')`. */
  function MysqlTimestamp(iso: string): (r: string)
    ensures |r| == if |iso| < 19 then |iso| else 19
    ensures var p := iso[..|r|];
      ('T' !in p ==> r == p) && ('T' in p ==> r == p[FirstIndex(p, 'T') := ' '])
  {
    var p := if |iso| < 19 then iso else iso[..19];
    ReplaceFirst(p, 'T', ' ')
  }

  /** The ISO-8601 text `YYYY-MM-DDTHH:MM:SS...` of `Date.toISOString`
      becomes the 19-character `YYYY-MM-DD HH:MM:SS`: the date part, a
      space, and the time part to the second. */
  lemma {:induction false} MysqlTimestampOfIso(iso: string)
    requires |iso| >= 19 && iso[10] == 'T'
    requires forall i :: 0 <= i < 10 ==> '0' <= iso[i] <= '9' || iso[i] == '-'
    ensures |MysqlTimestamp(iso)| == 19
    ensures MysqlTimestamp(iso)[10] == ' '
    ensures MysqlTimestamp(iso)[..10] == iso[..10]
    ensures MysqlTimestamp(iso)[11..] == iso[11..19]
  {
    var p := iso[..19];
    assert p[10] == 'T';
    assert forall i :: 0 <= i < 10 ==> p[i] != 'T';
    var k := FirstIndex(p, 'T');
    assert k <= 10;
    assert k >= 10;
  }

  // ----------------------------------------------------------------------
  // Rows

  /** The four columns of the person responsible for a submission, which
      the insert writes and no read hands back. */
  const ResponsableFields: set<string> :=
    {"responsableNombre", "responsableApellido", "responsableTelefono", "responsableEmail"}

  /** A row of `inscripciones_artisticas`. `textos` holds the
      discipline-specific text columns by field name and `responsable` the
      responsible person's columns. `estado`,
      `fechaCreacion` and `fechaModificacion` are filled by the table's
      column defaults on insert and later by `update`. */
  datatype Registro = Registro(
    id: int,
    nombre: Option<string>,
    disciplinaId: Option<int>,
    email: Option<string>,
    telefono: Option<string>,
    descripcion: Option<string>,
    tipoContenido: Option<TipoContenido>,
    linkContenido: Option<string>,
    archivoContenido: Option<string>,
    declaracionJurada: Option<string>,
    textos: map<string, string>,
    responsable: map<string, string>,
    esConcertado: bool,
    estado: Estado,
    fechaCreacion: int,
    fechaModificacion: string,
    usuarioId: Option<int>)

  /** A row of `integrantes_inscripcion`. */
  datatype MemberRow = MemberRow(inscripcionId: int, tipo: Role, rol: Option<string>,
                                 nombre: string, apellido: string, dni: string)

  /** The `Inscripcion` the repository hands back. `miembros` has a key
      for every role when the record was formatted with its members and is
      empty for the record `guardarInscripcionArtistica` returns. */
  datatype Ficha = Ficha(
    id: int,
    nombre: Option<string>,
    disciplina: string,
    disciplinaId: Option<int>,
    email: Option<string>,
    telefono: Option<string>,
    descripcion: Option<string>,
    tipoContenido: Option<TipoContenido>,
    linkContenido: Option<string>,
    archivoContenido: Option<string>,
    fechaCreacion: int,
    fechaModificacion: string,
    estado: Estado,
    usuarioId: Option<int>,
    textos: map<string, string>,
    miembros: map<Role, seq<Member>>)

  /** The object `guardarInscripcionArtistica` inserts, as the row the
      database stores under `id`. `usuario_id` is not part of it, and
      `es_concertado` is set exactly when an `elenco` list is present, even
      an empty one (an array is truthy). */
  function NuevoRegistro(b: Inscripciones.Borrador, id: int, ahora: int, ahoraTexto: string): (r: Registro)
    ensures r.id == id && r.estado == Pendiente && r.usuarioId.None?
    ensures r.esConcertado <==> Elenco in b.miembros
    ensures r.nombre == b.nombre && r.disciplinaId == b.disciplinaId && r.email == b.email
    ensures r.fechaCreacion == ahora && r.fechaModificacion == ahoraTexto
  {
    Registro(id, b.nombre, b.disciplinaId, b.email, b.telefono, b.descripcion, b.tipoContenido,
             b.linkContenido, b.archivoContenido, b.declaracionJurada,
             map k | k in b.textos && k in Inscripciones.TextFields :: b.textos[k],
             map k | k in b.textos && k in ResponsableFields :: b.textos[k],
             Elenco in b.miembros, Pendiente, ahora, ahoraTexto, None)
  }

  /** The text columns stored are the known ones the submission carries,
      each with its value. */
  lemma NuevoRegistroTextos(b: Inscripciones.Borrador, id: int, ahora: int, ahoraTexto: string)
    ensures var r := NuevoRegistro(b, id, ahora, ahoraTexto);
      r.textos.Keys == b.textos.Keys * Inscripciones.TextFields &&
      forall k :: k in r.textos ==> r.textos[k] == b.textos[k]
  {
  }

  /** The responsible person's columns stored are the ones the submission
      carries, each with its value. */
  lemma NuevoRegistroResponsable(b: Inscripciones.Borrador, id: int, ahora: int, ahoraTexto: string)
    ensures var r := NuevoRegistro(b, id, ahora, ahoraTexto);
      r.responsable.Keys == b.textos.Keys * ResponsableFields &&
      forall k :: k in r.responsable ==> r.responsable[k] == b.textos[k]
  {
  }

  /** The inscription fields of a row, without labelling its members. */
  function Proyectar(reg: Registro, miembros: map<Role, seq<Member>>): Ficha
  {
    Ficha(reg.id, reg.nombre, DisciplinaNombre(reg.disciplinaId), reg.disciplinaId, reg.email,
          reg.telefono, reg.descripcion, reg.tipoContenido, reg.linkContenido, reg.archivoContenido,
          reg.fechaCreacion, reg.fechaModificacion, reg.estado, reg.usuarioId, reg.textos, miembros)
  }

  function FichaCreacion(f: Ficha): int
  {
    f.fechaCreacion
  }

  // ----------------------------------------------------------------------
  // Flattening the member lists and grouping them back

  /** The list of a role, `[]` when the field is missing. */
  function MembersOf(m: map<Role, seq<Member>>, t: Role): seq<Member>
  {
    if t in m then m[t] else []
  }

  /** The row inserted for member `x` of list `t`; `rol` is only written
      for the roles that have one. */
  function Fila(id: int, t: Role, x: Member): MemberRow
  {
    MemberRow(id, t, if HasRol(t) then x.rol else None, x.nombre, x.apellido, x.dni)
  }

  /** The rows inserted for one member list, in list order. */
  function RowsOf(id: int, t: Role, ms: seq<Member>): (r: seq<MemberRow>)
    ensures |r| == |ms|
  {
    seq(|ms|, i requires 0 <= i < |ms| => Fila(id, t, ms[i]))
  }

  /** The rows of the lists of roles `ts`, one list after the other. */
  function FlattenRoles(id: int, m: map<Role, seq<Member>>, ts: seq<Role>): seq<MemberRow>
  {
    if ts == [] then []
    else FlattenRoles(id, m, ts[..|ts| - 1]) + RowsOf(id, ts[|ts| - 1], MembersOf(m, ts[|ts| - 1]))
  }

  /** Every member row a submission produces, in the order the six loops
      of `guardarInscripcionArtistica` insert them. */
  function Flatten(id: int, m: map<Role, seq<Member>>): seq<MemberRow>
  {
    FlattenRoles(id, m, Roles)
  }

  /** The rows of a prefix of the roles are a prefix of the rows. */
  lemma {:induction false} FlattenRolesPrefix(id: int, m: map<Role, seq<Member>>, ts: seq<Role>, j: nat)
    requires j <= |ts|
    ensures FlattenRoles(id, m, ts[..j]) <= FlattenRoles(id, m, ts)
  {
    if j < |ts| {
      var init := ts[..|ts| - 1];
      assert init[..j] == ts[..j];
      FlattenRolesPrefix(id, m, init, j);
      assert FlattenRoles(id, m, init) <= FlattenRoles(id, m, ts);
    } else {
      assert ts[..j] == ts;
    }
  }

  /** Every flattened row carries the new inscription's id. */
  lemma {:induction false} FlattenRolesIds(id: int, m: map<Role, seq<Member>>, ts: seq<Role>)
    ensures forall i :: 0 <= i < |FlattenRoles(id, m, ts)| ==> FlattenRoles(id, m, ts)[i].inscripcionId == id
  {
    if ts != [] {
      FlattenRolesIds(id, m, ts[..|ts| - 1]);
    }
  }

  /** The rows of one inscription and role (`getByConditions` on
      `inscripcion_id` and `tipo`). */
  function EsDe(id: int, t: Role): MemberRow -> bool
  {
    (r: MemberRow) => r.inscripcionId == id && r.tipo == t
  }

  /** The member object `formatearInscripcion` builds from a row of list
      `t`: `rol` is only read for the roles that have one. */
  function Miembro(t: Role): MemberRow -> Member
  {
    (r: MemberRow) => Member(if HasRol(t) then r.rol else None, r.nombre, r.apellido, r.dni)
  }

  /** The list of role `t` as `formatearInscripcion` reads it back. */
  function Regroup(rows: seq<MemberRow>, id: int, t: Role): (r: seq<Member>)
    ensures |r| <= |rows|
    ensures !HasRol(t) ==> forall i :: 0 <= i < |r| ==> r[i].rol.None?
  {
    Map(Filter(rows, EsDe(id, t)), Miembro(t))
  }

  /** A member list as it reads back: without `rol` for the roles that
      have none. */
  function Strip(t: Role, ms: seq<Member>): (r: seq<Member>)
    ensures |r| == |ms|
    ensures HasRol(t) ==> r == ms
    ensures forall i :: 0 <= i < |ms| ==> r[i] == ms[i].(rol := if HasRol(t) then ms[i].rol else None)
  {
    if HasRol(t) then ms else seq(|ms|, i requires 0 <= i < |ms| => ms[i].(rol := None))
  }

  /** `formatearInscripcion`: the row with its six member lists. */
  function Formatear(reg: Registro, rows: seq<MemberRow>): (f: Ficha)
    ensures f.id == reg.id && f.estado == reg.estado && f.disciplina == DisciplinaNombre(reg.disciplinaId)
    ensures f.miembros.Keys == set t | t in Roles
    ensures forall t :: t in Roles ==> f.miembros[t] == Regroup(rows, reg.id, t)
  {
    Proyectar(reg, map t | t in Roles :: Regroup(rows, reg.id, t))
  }

  lemma FilterOwnRows(id: int, t: Role, ms: seq<Member>)
    ensures Filter(RowsOf(id, t, ms), EsDe(id, t)) == RowsOf(id, t, ms)
  {
    FilterAll(RowsOf(id, t, ms), EsDe(id, t));
  }

  lemma FilterOtherRows(id: int, t: Role, u: Role, ms: seq<Member>)
    requires t != u
    ensures Filter(RowsOf(id, u, ms), EsDe(id, t)) == []
  {
    FilterNone(RowsOf(id, u, ms), EsDe(id, t));
  }

  /** No role occurs twice, read from the end as `FlattenRoles` reads. */
  predicate Distinct(ts: seq<Role>)
  {
    ts == [] || (ts[|ts| - 1] !in ts[..|ts| - 1] && Distinct(ts[..|ts| - 1]))
  }

  lemma RolesDistinct()
    ensures Distinct(Roles)
  {
    var r1 := [EnEscena];
    var r2 := r1 + [FueraEscena];
    var r3 := r2 + [Elenco];
    var r4 := r3 + [Integrante];
    var r5 := r4 + [Colaborador];
    assert r1[..0] == [] && Distinct(r1);
    assert r2[..1] == r1 && Distinct(r2);
    assert r3[..2] == r2 && Distinct(r3);
    assert r4[..3] == r3 && Distinct(r4);
    assert r5[..4] == r4 && Distinct(r5);
    assert Roles == r5 + [EquipoTecnico] && Roles[..5] == r5;
  }

  /** Selecting role `t` from the flattened rows of distinct roles `ts`
      gives that role's rows, or none when `t` is not among them. */
  lemma {:induction false} FilterFlattenRoles(id: int, m: map<Role, seq<Member>>, ts: seq<Role>, t: Role)
    requires Distinct(ts)
    ensures Filter(FlattenRoles(id, m, ts), EsDe(id, t)) ==
            if t in ts then RowsOf(id, t, MembersOf(m, t)) else []
  {
    if ts != [] {
      var init := ts[..|ts| - 1];
      var last := ts[|ts| - 1];
      var rows := RowsOf(id, last, MembersOf(m, last));
      var p := EsDe(id, t);
      assert Filter(FlattenRoles(id, m, ts), p) == Filter(FlattenRoles(id, m, init), p) + Filter(rows, p) by {
        assert FlattenRoles(id, m, ts) == FlattenRoles(id, m, init) + rows;
        FilterConcat(FlattenRoles(id, m, init), rows, p);
      }
      assert Filter(FlattenRoles(id, m, init), p) == if t in init then RowsOf(id, t, MembersOf(m, t)) else [] by {
        FilterFlattenRoles(id, m, init, t);
      }
      if t == last {
        assert Filter(rows, p) == rows by { FilterOwnRows(id, t, MembersOf(m, t)); }
        assert t in ts && t !in init;
      } else {
        assert Filter(rows, p) == [] by { FilterOtherRows(id, t, last, MembersOf(m, last)); }
        assert t in ts <==> t in init by { assert ts == init + [last]; }
      }
    }
  }

  /** Reading back the rows of member list `t` strips `rol` where the role
      has none and otherwise gives the list exactly. */
  lemma MapRowsOf(id: int, t: Role, ms: seq<Member>)
    ensures Map(RowsOf(id, t, ms), Miembro(t)) == Strip(t, ms)
  {
  }

  /** Grouping the rows of a submission back by role reconstructs each of
      its member lists, in order and with `rol` dropped for the roles that
      have none, as long as the store held no other rows of that
      inscription and returns rows in insertion order. */
  lemma RegroupFlatten(others: seq<MemberRow>, id: int, m: map<Role, seq<Member>>, t: Role)
    requires forall i :: 0 <= i < |others| ==> others[i].inscripcionId != id
    ensures Regroup(others + Flatten(id, m), id, t) == Strip(t, MembersOf(m, t))
  {
    FilterConcat(others, Flatten(id, m), EsDe(id, t));
    FilterNone(others, EsDe(id, t));
    RolesDistinct();
    FilterFlattenRoles(id, m, Roles, t);
    assert t in Roles;
    assert [] + Filter(Flatten(id, m), EsDe(id, t)) == RowsOf(id, t, MembersOf(m, t));
    MapRowsOf(id, t, MembersOf(m, t));
  }

  /** One more role adds its rows at the end. */
  lemma FlattenRolesSnoc(id: int, m: map<Role, seq<Member>>, ts: seq<Role>, j: nat)
    requires j < |ts|
    ensures FlattenRoles(id, m, ts[..j + 1]) == FlattenRoles(id, m, ts[..j]) + RowsOf(id, ts[j], MembersOf(m, ts[j]))
  {
    assert ts[..j + 1][..j] == ts[..j];
  }

  /** The first `n` elements of `s`, or all of it when it is shorter. */
  function Take<T>(s: seq<T>, n: int): (r: seq<T>)
    ensures |r| == if n < 0 then 0 else if n < |s| then n else |s|
    ensures r == s[..|r|]
  {
    if n <= 0 then [] else if n < |s| then s[..n] else s
  }

  /** Cutting a sequence at `n` only sees a prefix longer than `n`. */
  lemma TakeOfPrefix<T>(a: seq<T>, s: seq<T>, n: int)
    requires a <= s && n < |a|
    ensures Take(a, n) == Take(s, n)
  {
  }

  lemma TakeConcat<T>(a: seq<T>, b: seq<T>, n: int)
    ensures Take(a + b, n) == if n <= |a| then Take(a, n) else a + Take(b, n - |a|)
  {
    if n > |a| {
      assert (a + b)[..|Take(a + b, n)|] == a + b[..|Take(b, n - |a|)|];
    }
  }

  // ----------------------------------------------------------------------
  // Log entries written through `insertLog`

  /** `{id, disciplina}` of the success entries. */
  function IdYDisciplina(id: int, disciplina: string): Json
  {
    JObject([("id", JNumber(id)), ("disciplina", JString(disciplina))])
  }

  /** A property `JSON.stringify` keeps only when it is defined. */
  function Opcional(k: string, o: Option<string>): seq<(string, Json)>
  {
    if o.Some? then [(k, JString(o.value))] else []
  }

  /** `{ error }`, where `error` is the thrown value as `JSON.stringify`
      writes it: `{}` for a plain `Error`, whose own properties are not
      enumerable, and an object of its enumerable fields for a driver
      error. */
  function ConError(error: Json): Json
  {
    JObject([("error", error)])
  }

  /** The awaited step of an approval or a rejection that throws, if any:
      the first read, the update, the read after the update, or one of the
      member queries of the `formatearInscripcion` call that is returned
      without being awaited. */
  datatype Falla = NoFalla | FallaLectura | FallaUpdate | FallaRelectura | FallaMiembros

  /** The log message of a successful approval or rejection. */
  function MensajeCambio(id: int, estado: Estado): string
  {
    "Inscripción #" + IntToString(id) + (if estado.Aprobado? then " aprobada" else " rechazada")
  }

  /** The log message of a failed approval or rejection. */
  function MensajeFallo(id: int, estado: Estado): string
  {
    (if estado.Aprobado? then "Error al aprobar inscripción #" else "Error al rechazar inscripción #") + IntToString(id)
  }

  /** The row after `update(... {estado, fecha_modificacion})` on id `id`. */
  function ConEstado(id: int, estado: Estado, fecha: string): Registro -> Registro
  {
    (r: Registro) => if r.id == id then r.(estado := estado, fechaModificacion := fecha) else r
  }

  function ConId(id: int): Registro -> bool
  {
    (r: Registro) => r.id == id
  }

  function DeDisciplina(d: int): Registro -> bool
  {
    (r: Registro) => r.disciplinaId == Some(d)
  }

  function FormatearCon(rows: seq<MemberRow>): Registro -> Ficha
  {
    (r: Registro) => Formatear(r, rows)
  }

  ghost predicate UniqueIds(rs: seq<Registro>)
  {
    forall i, j :: 0 <= i < j < |rs| ==> rs[i].id != rs[j].id
  }

  /** `despues` is `antes` with every row of id `id` replaced by `nuevo`. */
  ghost predicate Reemplazado(antes: seq<Registro>, despues: seq<Registro>, id: int, nuevo: Registro)
  {
    |despues| == |antes| &&
    forall i :: 0 <= i < |antes| ==> despues[i] == if antes[i].id == id then nuevo else antes[i]
  }

  /** The update on id `id` rewrites exactly the row with that id, which
      is unique, and keeps every id in place. */
  lemma CambioFacts(rs: seq<Registro>, actual: Registro, estado: Estado, fecha: string)
    requires UniqueIds(rs) && actual in rs
    ensures var nuevos := Map(rs, ConEstado(actual.id, estado, fecha));
      var nuevo := actual.(estado := estado, fechaModificacion := fecha);
      |nuevos| == |rs| && UniqueIds(nuevos) &&
      (forall i :: 0 <= i < |rs| ==> nuevos[i].id == rs[i].id) &&
      (forall i :: 0 <= i < |rs| ==> nuevos[i] == if rs[i].id == actual.id then nuevo else rs[i]) &&
      (forall x :: x in nuevos && x.id == actual.id ==> x == nuevo)
  {
    var nuevos := Map(rs, ConEstado(actual.id, estado, fecha));
    var k :| 0 <= k < |rs| && rs[k] == actual;
    assert forall i :: 0 <= i < |rs| && rs[i].id == actual.id ==> i == k;
  }

  /** A row appended with an id above every stored one is the only row
      with that id. */
  lemma ConIdUltimo(rs: seq<Registro>, x: Registro)
    requires forall i :: 0 <= i < |rs| ==> rs[i].id < x.id
    ensures Filter(rs + [x], ConId(x.id)) == [x]
  {
    FilterConcat(rs, [x], ConId(x.id));
    FilterNone(rs, ConId(x.id));
    assert [x][1..] == [];
  }

  /** Each member list of `m` reads back from the rows of inscription `id`. */
  ghost predicate Releidos(rows: seq<MemberRow>, id: int, m: map<Role, seq<Member>>)
  {
    forall t :: t in Roles ==> Regroup(rows, id, t) == Strip(t, MembersOf(m, t))
  }

  /** Once every member row of a new inscription is in, after rows of
      older inscriptions only, each of its lists reads back. */
  lemma RegroupGuardado(before: seq<MemberRow>, id: int, m: map<Role, seq<Member>>, n: int)
    requires forall i :: 0 <= i < |before| ==> before[i].inscripcionId < id
    requires |Flatten(id, m)| <= n
    ensures Releidos(before + Take(Flatten(id, m), n), id, m)
  {
    assert Take(Flatten(id, m), n) == Flatten(id, m);
    forall t | t in Roles
      ensures Regroup(before + Flatten(id, m), id, t) == Strip(t, MembersOf(m, t))
    {
      RegroupFlatten(before, id, m, t);
    }
  }

  /** The details logged when saving fails: the error and the name and
      discipline given, where present. */
  function DetalleError(error: string, b: Inscripciones.Borrador): Json
  {
    JObject([("error", JString(error))] + Opcional("nombre", b.nombre) + Opcional("disciplina", b.disciplina))
  }

  /** The tables the repository reads and writes. `nextId` is the
      auto-increment value the next inscription row receives. */
  class Store {
    var registros: seq<Registro>
    var integrantes: seq<MemberRow>
    var logs: seq<Db.Fields>
    var nextId: int

    ghost predicate Valid()
      reads this
    {
      nextId >= 1 &&
      UniqueIds(registros) &&
      (forall i :: 0 <= i < |registros| ==> registros[i].id < nextId) &&
      (forall i :: 0 <= i < |integrantes| ==> integrantes[i].inscripcionId < nextId)
    }

    constructor ()
      ensures Valid() && registros == [] && integrantes == [] && logs == [] && nextId == 1
    {
      registros := [];
      integrantes := [];
      logs := [];
      nextId := 1;
    }

    /** `getById('inscripciones_artisticas', id)`. */
    function GetById(id: int): (r: Option<Registro>)
      reads this
      ensures r.Some? ==> r.value in registros && r.value.id == id
      ensures r.None? <==> forall i :: 0 <= i < |registros| ==> registros[i].id != id
    {
      var hits := Filter(registros, ConId(id));
      FilterMembership(registros, ConId(id));
      assert hits != [] ==> hits[0] in hits;
      assert forall i :: 0 <= i < |registros| && registros[i].id == id ==> registros[i] in hits;
      Db.FirstRow(hits)
    }

    /** `insertLog` on the log table; `ok` says whether its insert succeeded. */
    method InsertLog(nivel: Logging.LogLevel, mensaje: string, detalles: Json, ok: bool)
      modifies this
      ensures logs == Db.AfterInsertLog(old(logs), nivel, mensaje, Some(detalles), None, ok)
      ensures registros == old(registros) && integrantes == old(integrantes) && nextId == old(nextId)
    {
      logs := Db.AfterInsertLog(logs, nivel, mensaje, Some(detalles), None, ok);
    }

    /** One loop of `guardarInscripcionArtistica`: the rows of list `ms`
        under role `t`, one insert each. At most `budget` inserts succeed;
        the next one throws, and the rows already inserted stay. */
    method InsertarMiembros(id: int, t: Role, ms: seq<Member>, budget: nat) returns (left: nat, ok: bool)
      requires Valid() && id < nextId
      modifies this
      ensures Valid()
      ensures registros == old(registros) && logs == old(logs) && nextId == old(nextId)
      ensures integrantes == old(integrantes) + Take(RowsOf(id, t, ms), budget)
      ensures ok <==> |ms| <= budget
      ensures ok ==> left == budget - |ms|
    {
      left := budget;
      var i := 0;
      while i < |ms|
        invariant 0 <= i <= |ms| && i <= budget && left == budget - i
        invariant integrantes == old(integrantes) + RowsOf(id, t, ms)[..i]
        invariant registros == old(registros) && logs == old(logs) && nextId == old(nextId)
        invariant Valid()
      {
        if left == 0 {
          ok := false;
          return;
        }
        assert RowsOf(id, t, ms)[..i + 1] == RowsOf(id, t, ms)[..i] + [Fila(id, t, ms[i])];
        integrantes := integrantes + [Fila(id, t, ms[i])];
        left := left - 1;
        i := i + 1;
      }
      assert RowsOf(id, t, ms)[..i] == RowsOf(id, t, ms);
      ok := true;
    }

    /** The member loops: the list of every role of `ts` in turn, with
        the insert budget carried from one list to the next. */
    method InsertarTodos(id: int, m: map<Role, seq<Member>>, ts: seq<Role>, budget: nat) returns (ok: bool)
      requires Valid() && id < nextId
      modifies this
      ensures Valid()
      ensures registros == old(registros) && logs == old(logs) && nextId == old(nextId)
      ensures integrantes == old(integrantes) + Take(FlattenRoles(id, m, ts), budget)
      ensures ok <==> |FlattenRoles(id, m, ts)| <= budget
    {
      var left := budget;
      var j := 0;
      ghost var done: seq<MemberRow> := [];
      while j < |ts|
        invariant 0 <= j <= |ts| && done == FlattenRoles(id, m, ts[..j])
        invariant |done| <= budget && left == budget - |done|
        invariant integrantes == old(integrantes) + done
        invariant registros == old(registros) && logs == old(logs) && nextId == old(nextId)
        invariant Valid()
      {
        ghost var rows := RowsOf(id, ts[j], MembersOf(m, ts[j]));
        var l2, ok2 := InsertarMiembros(id, ts[j], MembersOf(m, ts[j]), left);
        if !ok2 {
          LoopFailure(id, m, ts, j, budget, left);
          ConcatAssoc(old(integrantes), done, Take(rows, left));
          return false;
        }
        FlattenRolesSnoc(id, m, ts, j);
        ConcatAssoc(old(integrantes), done, rows);
        done := done + rows;
        left := l2;
        j := j + 1;
      }
      assert ts[..j] == ts;
      ok := true;
    }

    /** A failed list leaves the rows up to the budget, whatever follows. */
    static lemma LoopFailure(id: int, m: map<Role, seq<Member>>, ts: seq<Role>, j: nat, budget: nat, left: nat)
      requires j < |ts|
      requires |FlattenRoles(id, m, ts[..j])| <= budget && left == budget - |FlattenRoles(id, m, ts[..j])|
      requires |MembersOf(m, ts[j])| > left
      ensures FlattenRoles(id, m, ts[..j]) + Take(RowsOf(id, ts[j], MembersOf(m, ts[j])), left) == Take(FlattenRoles(id, m, ts), budget)
      ensures |FlattenRoles(id, m, ts)| > budget
    {
      var done := FlattenRoles(id, m, ts[..j]);
      var rows := RowsOf(id, ts[j], MembersOf(m, ts[j]));
      FlattenRolesSnoc(id, m, ts, j);
      TakeConcat(done, rows, budget);
      FlattenRolesPrefix(id, m, ts, j + 1);
      TakeOfPrefix(done + rows, FlattenRoles(id, m, ts), budget);
    }

    /** The insert of the inscription row: it receives the next id. */
    method InsertarRegistro(x: Registro)
      requires Valid() && x.id == nextId
      modifies this
      ensures Valid()
      ensures registros == old(registros) + [x] && nextId == old(nextId) + 1
      ensures integrantes == old(integrantes) && logs == old(logs)
      ensures GetById(x.id) == Some(x)
    {
      ConIdUltimo(registros, x);
      registros := registros + [x];
      nextId := nextId + 1;
    }

    /** The end of a save whose inserts all succeeded: the row read back
        under its id, the info log entry, and the record returned. */
    method Confirmar(x: Registro, m: map<Role, seq<Member>>, ghost before: seq<MemberRow>, ghost n: int, logOk: bool)
      returns (r: Db.Outcome<Ficha>)
      requires Valid() && GetById(x.id) == Some(x)
      requires integrantes == before + Take(Flatten(x.id, m), n) && |Flatten(x.id, m)| <= n
      requires forall i :: 0 <= i < |before| ==> before[i].inscripcionId < x.id
      modifies this
      ensures Valid()
      ensures registros == old(registros) && integrantes == old(integrantes) && nextId == old(nextId)
      ensures r == Db.Done(Proyectar(x, map[]))
      ensures logs == Db.AfterInsertLog(old(logs), Logging.Info, "Inscripción artística guardada",
                                        Some(IdYDisciplina(x.id, r.value.disciplina)), None, logOk)
      ensures Releidos(integrantes, x.id, m)
    {
      var fila := GetById(x.id);
      var ficha := Proyectar(fila.value, map[]);
      InsertLog(Logging.Info, "Inscripción artística guardada", IdYDisciplina(ficha.id, ficha.disciplina), logOk);
      RegroupGuardado(before, x.id, m, n);
      r := Db.Done(ficha);
    }

    /** The catch block of a save: the ERROR log entry, then the error
        thrown again. */
    method Fallar(error: string, b: Inscripciones.Borrador, logOk: bool) returns (r: Db.Outcome<Ficha>)
      modifies this
      ensures registros == old(registros) && integrantes == old(integrantes) && nextId == old(nextId)
      ensures r == Db.Threw(error)
      ensures logs == Db.AfterInsertLog(old(logs), Logging.Error, "Error al guardar inscripción artística",
                                        Some(DetalleError(error, b)), None, logOk)
    {
      InsertLog(Logging.Error, "Error al guardar inscripción artística", DetalleError(error, b), logOk);
      r := Db.Threw(error);
    }

    /** The callback `guardarInscripcionArtistica` hands to
        `db.transaction`. `exitosos` is how many of its awaited database
        calls succeed before one throws `error`: the insert of the
        inscription row, the member inserts, then the read of the row. Each
        insert runs on its own pooled connection, so rows written before a
        failure remain. */
    method EnTransaccion(b: Inscripciones.Borrador, ahora: int, ahoraTexto: string, exitosos: nat,
                         error: string, logOk: bool) returns (cb: Db.Outcome<Ficha>)
      requires Valid()
      modifies this
      ensures Valid()
      ensures var id := old(nextId);
        (exitosos >= 1 ==> registros == old(registros) + [NuevoRegistro(b, id, ahora, ahoraTexto)] &&
                           integrantes == old(integrantes) + Take(Flatten(id, b.miembros), exitosos - 1) &&
                           nextId == id + 1) &&
        (exitosos == 0 ==> registros == old(registros) && integrantes == old(integrantes) && nextId == id)
      ensures cb.Done? <==> exitosos >= 2 + |Flatten(old(nextId), b.miembros)|
      ensures cb.Done? ==>
        cb.value == Proyectar(NuevoRegistro(b, old(nextId), ahora, ahoraTexto), map[]) &&
        logs == Db.AfterInsertLog(old(logs), Logging.Info, "Inscripción artística guardada",
                                  Some(IdYDisciplina(cb.value.id, cb.value.disciplina)), None, logOk) &&
        Releidos(integrantes, cb.value.id, b.miembros)
      ensures cb.Threw? ==> cb.error == error && logs == old(logs)
    {
      ghost var before := integrantes;
      var id := nextId;
      var ok := false;
      if exitosos >= 1 {
        InsertarRegistro(NuevoRegistro(b, id, ahora, ahoraTexto));
        ok := InsertarTodos(id, b.miembros, Roles, exitosos - 1);
      }
      if ok && exitosos >= 2 + |Flatten(id, b.miembros)| {
        cb := Confirmar(NuevoRegistro(b, id, ahora, ahoraTexto), b.miembros, before, exitosos - 1, logOk);
      } else {
        cb := Db.Threw(error);
      }
    }

    /** `guardarInscripcionArtistica(b)`. `tx` says how the connection
        steps of `db.transaction` turn out; the callback runs only once the
        connection is acquired and the transaction begun, with `exitosos`
        and `error` as for `EnTransaccion`, and `logOk` says whether the log
        inserts succeed. A rollback cannot undo the rows the callback
        inserted, and a failure after the callback (the commit) leaves its
        INFO entry in place before the ERROR one. */
    method Guardar(b: Inscripciones.Borrador, ahora: int, ahoraTexto: string, tx: Db.TransactionSteps,
                   exitosos: nat, error: string, logOk: bool)
      returns (r: Db.Outcome<Ficha>)
      requires Valid()
      modifies this
      ensures Valid()
      ensures var id := old(nextId);
        var n := if tx.acquire.Done? && tx.begin.Done? then exitosos else 0;
        (n >= 1 ==> registros == old(registros) + [NuevoRegistro(b, id, ahora, ahoraTexto)] &&
                    integrantes == old(integrantes) + Take(Flatten(id, b.miembros), n - 1) &&
                    nextId == id + 1) &&
        (n == 0 ==> registros == old(registros) && integrantes == old(integrantes) && nextId == id)
      ensures var id := old(nextId);
        var completa := tx.acquire.Done? && tx.begin.Done? && exitosos >= 2 + |Flatten(id, b.miembros)|;
        var ficha := Proyectar(NuevoRegistro(b, id, ahora, ahoraTexto), map[]);
        var info := Db.AfterInsertLog(old(logs), Logging.Info, "Inscripción artística guardada",
                                      Some(IdYDisciplina(id, ficha.disciplina)), None, logOk);
        r == Db.TransactionResult(tx, if completa then Db.Done(ficha) else Db.Threw(error)) &&
        (r.Done? ==> logs == info && Releidos(integrantes, id, b.miembros)) &&
        (r.Threw? ==> logs == Db.AfterInsertLog(if completa then info else old(logs), Logging.Error,
                                                "Error al guardar inscripción artística",
                                                Some(DetalleError(r.error, b)), None, logOk))
    {
      var cb: Db.Outcome<Ficha> := Db.Threw(error);
      if tx.acquire.Done? && tx.begin.Done? {
        cb := EnTransaccion(b, ahora, ahoraTexto, exitosos, error, logOk);
      }
      r := Db.TransactionResult(tx, cb);
      if r.Threw? {
        r := Fallar(r.error, b, logOk);
      }
    }

    /** The update of an approval or rejection: only the row of
        `actual`'s id changes, to `nuevo`, which is then read back. */
    method Actualizar(actual: Registro, estado: Estado, fecha: string) returns (nuevo: Registro)
      requires Valid() && actual in registros
      modifies this
      ensures Valid()
      ensures nuevo == actual.(estado := estado, fechaModificacion := fecha)
      ensures Reemplazado(old(registros), registros, actual.id, nuevo)
      ensures GetById(actual.id) == Some(nuevo)
      ensures integrantes == old(integrantes) && logs == old(logs) && nextId == old(nextId)
    {
      nuevo := actual.(estado := estado, fechaModificacion := fecha);
      CambioFacts(registros, actual, estado, fecha);
      registros := Map(registros, ConEstado(actual.id, estado, fecha));
    }

    /** The catch block of an approval or rejection: the ERROR entry with
        the serialised error, then the error thrown again. */
    method FallarCambio(id: int, estado: Estado, error: string, errorJson: Json, logOk: bool)
      returns (r: Db.Outcome<Option<Ficha>>)
      modifies this
      ensures registros == old(registros) && integrantes == old(integrantes) && nextId == old(nextId)
      ensures r == Db.Threw(error)
      ensures logs == Db.AfterInsertLog(old(logs), Logging.Error, MensajeFallo(id, estado),
                                        Some(ConError(errorJson)), None, logOk)
    {
      InsertLog(Logging.Error, MensajeFallo(id, estado), ConError(errorJson), logOk);
      r := Db.Threw(error);
    }

    /** `aprobarInscripcionArtistica` (`estado` Aprobado) and
        `rechazarInscripcionArtistica` (Rechazado). `ahoraIso` is
        `new Date().toISOString()`; `falla` is the step that throws
        `error`, serialised as `errorJson`, if one does; `logOk` says
        whether the log insert succeeds. An absent id gives `undefined`
        with no update and no log entry. A failure of the member queries
        escapes the catch block: the INFO entry stays and no ERROR entry
        is written. */
    method CambiarEstado(id: int, estado: Estado, ahoraIso: string, falla: Falla,
                         error: string, errorJson: Json, logOk: bool)
      returns (r: Db.Outcome<Option<Ficha>>)
      requires Valid() && estado != Pendiente
      modifies this
      ensures Valid()
      ensures integrantes == old(integrantes) && nextId == old(nextId)
      ensures var fallo := Db.AfterInsertLog(old(logs), Logging.Error, MensajeFallo(id, estado),
                                             Some(ConError(errorJson)), None, logOk);
        falla.FallaLectura? ==>
          r == Db.Threw(error) && registros == old(registros) && logs == fallo
      ensures !falla.FallaLectura? && old(GetById(id)).None? ==>
        r == Db.Done(None) && registros == old(registros) && logs == old(logs)
      ensures var fallo := Db.AfterInsertLog(old(logs), Logging.Error, MensajeFallo(id, estado),
                                             Some(ConError(errorJson)), None, logOk);
        falla.FallaUpdate? && old(GetById(id)).Some? ==>
          r == Db.Threw(error) && registros == old(registros) && logs == fallo
      ensures var fallo := Db.AfterInsertLog(old(logs), Logging.Error, MensajeFallo(id, estado),
                                             Some(ConError(errorJson)), None, logOk);
        falla.FallaRelectura? && old(GetById(id)).Some? ==>
          var nuevo := old(GetById(id)).value.(estado := estado, fechaModificacion := MysqlTimestamp(ahoraIso));
          r == Db.Threw(error) && Reemplazado(old(registros), registros, id, nuevo) && logs == fallo
      ensures (falla.NoFalla? || falla.FallaMiembros?) && old(GetById(id)).Some? ==>
        var nuevo := old(GetById(id)).value.(estado := estado, fechaModificacion := MysqlTimestamp(ahoraIso));
        Reemplazado(old(registros), registros, id, nuevo) &&
        r == (if falla.NoFalla? then Db.Done(Some(Formatear(nuevo, integrantes))) else Db.Threw(error)) &&
        logs == Db.AfterInsertLog(old(logs), Logging.Info, MensajeCambio(id, estado),
                                  Some(IdYDisciplina(id, DisciplinaNombre(nuevo.disciplinaId))), None, logOk)
    {
      if falla.FallaLectura? {
        r := FallarCambio(id, estado, error, errorJson, logOk);
        return;
      }
      var actual := GetById(id);
      if actual.None? {
        return Db.Done(None);
      }
      if falla.FallaUpdate? {
        r := FallarCambio(id, estado, error, errorJson, logOk);
        return;
      }
      var nuevo := Actualizar(actual.value, estado, MysqlTimestamp(ahoraIso));
      if falla.FallaRelectura? {
        r := FallarCambio(id, estado, error, errorJson, logOk);
        return;
      }
      var recargada := GetById(id);
      InsertLog(Logging.Info, MensajeCambio(id, estado), IdYDisciplina(id, DisciplinaNombre(recargada.value.disciplinaId)), logOk);
      if falla.FallaMiembros? {
        return Db.Threw(error);
      }
      r := Db.Done(Some(Formatear(recargada.value, integrantes)));
    }

    /** The rows `obtenerInscripciones` reads: every row for an
        administrator, the rows of the user's discipline for a user that has
        one, none otherwise. */
    function Datos(usuario: Option<User>): (d: seq<Registro>)
      reads this
    {
      if usuario.None? then []
      else if usuario.value.esAdmin then registros
      else if TruthyInt(usuario.value.disciplinaId) then Filter(registros, DeDisciplina(usuario.value.disciplinaId.value))
      else []
    }

    /** The list `obtenerInscripciones(usuario)` returns when its queries
        succeed: the rows read, each formatted with its members, newest
        first. */
    function Listado(usuario: Option<User>): (r: seq<Ficha>)
      reads this
      ensures |r| == |Datos(usuario)|
      ensures multiset(r) == multiset(Map(Datos(usuario), FormatearCon(integrantes)))
      ensures SortedDesc(r, FichaCreacion)
    {
      var fichas := Map(Datos(usuario), FormatearCon(integrantes));
      SortDescFacts(fichas, FichaCreacion);
      SortDesc(fichas, FichaCreacion)
    }

    /** Who sees what: nothing without a user, every row for an
        administrator, exactly the rows of their discipline for any other
        user that has one, and nothing otherwise. */
    lemma ListadoAlcance(usuario: Option<User>)
      ensures usuario.None? ==> Listado(usuario) == []
      ensures usuario.Some? && usuario.value.esAdmin ==> |Listado(usuario)| == |registros|
      ensures usuario.Some? && !usuario.value.esAdmin && TruthyInt(usuario.value.disciplinaId) ==>
                forall f :: f in Listado(usuario) <==>
                  exists reg :: reg in registros && reg.disciplinaId == usuario.value.disciplinaId && f == Formatear(reg, integrantes)
      ensures usuario.Some? && !usuario.value.esAdmin && !TruthyInt(usuario.value.disciplinaId) ==> Listado(usuario) == []
    {
      if usuario.Some? && !usuario.value.esAdmin && TruthyInt(usuario.value.disciplinaId) {
        forall f
          ensures f in Listado(usuario) <==>
                  exists reg :: reg in registros && reg.disciplinaId == usuario.value.disciplinaId && f == Formatear(reg, integrantes)
        {
          ListadoMembership(usuario, f);
        }
      }
    }

    /** A formatted record is listed iff it is the image of a row read. */
    lemma ListadoMembership(usuario: Option<User>, f: Ficha)
      requires usuario.Some? && !usuario.value.esAdmin && TruthyInt(usuario.value.disciplinaId)
      ensures f in Listado(usuario) <==>
              exists reg :: reg in registros && reg.disciplinaId == usuario.value.disciplinaId && f == Formatear(reg, integrantes)
    {
      var d := Datos(usuario);
      var fichas := Map(d, FormatearCon(integrantes));
      assert f in Listado(usuario) <==> f in multiset(fichas);
      MapMembership(d, FormatearCon(integrantes), f);
      FilterMembership(registros, DeDisciplina(usuario.value.disciplinaId.value));
    }

    /** Whether `obtenerInscripciones(usuario)` queries the database: for
        an administrator, and for a user with a discipline. */
    static predicate Consulta(usuario: Option<User>)
    {
      usuario.Some? && (usuario.value.esAdmin || TruthyInt(usuario.value.disciplinaId))
    }

    /** `obtenerInscripciones(usuario)`. `queryOk` says whether its queries
        succeed, when it makes any; a failure is logged with the thrown
        value serialised as `errorJson` and gives the empty list. */
    method ObtenerInscripciones(usuario: Option<User>, queryOk: bool, errorJson: Json, logOk: bool) returns (r: seq<Ficha>)
      modifies this
      ensures registros == old(registros) && integrantes == old(integrantes) && nextId == old(nextId)
      ensures (!Consulta(usuario) || queryOk) ==> r == old(Listado(usuario)) && logs == old(logs)
      ensures !Consulta(usuario) ==> r == []
      ensures Consulta(usuario) && !queryOk ==>
        r == [] && logs == Db.AfterInsertLog(old(logs), Logging.Error, "Error al obtener listado de inscripciones",
                                             Some(ConError(errorJson)), None, logOk)
    {
      if !Consulta(usuario) || queryOk {
        r := Listado(usuario);
      } else {
        InsertLog(Logging.Error, "Error al obtener listado de inscripciones", ConError(errorJson), logOk);
        r := [];
      }
    }
  }
}
