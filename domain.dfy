/** Entities shared by several source files: the session user, the
    registration status, the six member roles and the dynamic values
    (JSON documents and SQL parameters) that flow through the portal. */
module Domain {
  import opened Common

  /** The user attached to a request (`User` in `src/lib/stores.ts`);
      `disciplinaId` is `null` for administrators. */
  datatype User = User(id: int, nombre: string, email: string, esAdmin: bool, disciplinaId: Option<int>)

  /** `'pendiente' | 'aprobado' | 'rechazado'`. */
  datatype Estado = Pendiente | Aprobado | Rechazado

  /** `'archivo' | 'link'`. */
  datatype TipoContenido = Archivo | Link

  /** The six member roles, in the order in which a submission stores them.
      The discriminator strings are `en_escena`, `fuera_escena`, `elenco`,
      `integrante`, `colaborador` and `equipo_tecnico`. */
  datatype Role = EnEscena | FueraEscena | Elenco | Integrante | Colaborador | EquipoTecnico

  /** Roles whose member lists carry a `rol` label. */
  predicate HasRol(t: Role)
  {
    t != EnEscena && t != Integrante
  }

  /** Every role, in storage order. */
  const Roles: seq<Role> := [EnEscena, FueraEscena, Elenco, Integrante, Colaborador, EquipoTecnico]

  /** One person of a cast or crew list. `rol` is absent in the lists
      whose entries have no role label. */
  datatype Member = Member(rol: Option<string>, nombre: string, apellido: string, dni: string)

  /** A JSON document (the `any`-typed `details` of log events, parsed form
      fields, the payload of a cookie). */
  datatype Json =
    | JNull
    | JBool(b: bool)
    | JNumber(n: int)
    | JString(s: string)
    | JArray(items: seq<Json>)
    | JObject(fields: seq<(string, Json)>)

  /** JavaScript truthiness of a JSON value. */
  predicate TruthyJson(j: Json)
  {
    match j
    case JNull => false
    case JBool(b) => b
    case JNumber(n) => n != 0
    case JString(s) => s != ""
    case _ => true
  }

  /** A value bound to a `?` placeholder of a SQL statement.
      `VJsonText(j)` is the text `JSON.stringify(j)`. */
  datatype Value = VNull | VInt(i: int) | VStr(s: string) | VBool(b: bool) | VJsonText(j: Json)

  /** The value of the last `k` among `fields` (`JSON.parse` keeps the
      last of repeated keys). */
  function LastValue(fields: seq<(string, Json)>, k: string): (r: Option<Json>)
    ensures r.None? <==> forall i :: 0 <= i < |fields| ==> fields[i].0 != k
    ensures r.Some? ==> exists i :: 0 <= i < |fields| && fields[i] == (k, r.value) &&
                                    forall j :: i < j < |fields| ==> fields[j].0 != k
  {
    if fields == [] then None
    else if fields[|fields| - 1].0 == k then Some(fields[|fields| - 1].1)
    else
      var init := fields[..|fields| - 1];
      var r := LastValue(init, k);
      assert forall i :: 0 <= i < |init| ==> init[i] == fields[i];
      assert r.Some? ==> exists i :: 0 <= i < |init| && init[i] == (k, r.value) &&
                                     forall j :: i < j < |fields| ==> fields[j].0 != k;
      r
  }

  /** Property access `o.k` on a parsed JSON value: `None` when it throws
      (`o` is `null`), `Some(None)` when the property is `undefined` (any
      value other than an object holding `k`), else the property's value. */
  function Prop(o: Json, k: string): (r: Option<Option<Json>>)
    ensures r.None? <==> o == JNull
    ensures r.Some? && r.value.Some? ==> o.JObject? && r.value == LastValue(o.fields, k)
    ensures o.JObject? ==> r == Some(LastValue(o.fields, k))
    ensures o != JNull && !o.JObject? ==> r == Some(None)
  {
    match o
    case JNull => None
    case JObject(fields) => Some(LastValue(fields, k))
    case _ => Some(None)
  }
}
