/** `POST /api/auth/login` (`src/routes/api/auth/login/+server.ts`): checks
    an email and a password against the `usuarios` table and, on success,
    answers with the user's row minus its password plus the discipline's
    name, and stores the same object in the `user_session` cookie. A row is
    a map from column name to JSON value; the included `disciplinas`
    relation sits under the key `"disciplinas"` (`null` when absent). */
module Login {
  import opened Common
  import opened Domain
  import Db

  type Fila = map<string, Json>

  /** The cookie `cookies.set` stores. `valor` is the object whose
      `JSON.stringify` is the cookie's text. */
  datatype Cookie = Cookie(nombre: string, valor: map<string, Json>, path: string, httpOnly: bool,
                           sameSite: string, secure: bool, maxAge: int)

  datatype Cuerpo = Error(mensaje: string) | Usuario(datos: map<string, Json>)

  datatype Respuesta = Respuesta(status: int, cuerpo: Cuerpo, cookie: Option<Cookie>)

  const Requeridos := "Email y contraseña son requeridos"
  const CredencialesInvalidas := "Credenciales inválidas"
  const ErrorInterno := "Error interno del servidor"
  const NombreCookie := "user_session"
  /** Seven days, in seconds. */
  const SieteDias := 60 * 60 * 24 * 7

  /** The table the model assumes: every row has a string email and a
      string password, and emails are unique (`findUnique` on `email`). */
  ghost predicate TablaValida(usuarios: seq<Fila>)
  {
    (forall i :: 0 <= i < |usuarios| ==>
       "email" in usuarios[i] && usuarios[i]["email"].JString? &&
       "password" in usuarios[i] && usuarios[i]["password"].JString?) &&
    forall i, j :: 0 <= i < j < |usuarios| ==> usuarios[i]["email"] != usuarios[j]["email"]
  }

  predicate TieneEmail(f: Fila, email: string)
  {
    "email" in f && f["email"] == JString(email)
  }

  /** `findUnique({ where: { email } })`. */
  function Buscar(usuarios: seq<Fila>, email: string): (r: Option<Fila>)
    ensures r.None? <==> forall i :: 0 <= i < |usuarios| ==> !TieneEmail(usuarios[i], email)
    ensures r.Some? ==> exists i :: 0 <= i < |usuarios| && usuarios[i] == r.value && TieneEmail(r.value, email)
  {
    if usuarios == [] then None
    else if TieneEmail(usuarios[0], email) then Some(usuarios[0])
    else
      var r := Buscar(usuarios[1..], email);
      assert forall i :: 1 <= i < |usuarios| ==> usuarios[1..][i - 1] == usuarios[i];
      r
  }

  /** In a valid table the row found is the only one with that email. */
  lemma BuscarUnico(usuarios: seq<Fila>, email: string, i: int)
    requires TablaValida(usuarios)
    requires 0 <= i < |usuarios| && TieneEmail(usuarios[i], email)
    ensures Buscar(usuarios, email) == Some(usuarios[i])
  {
    assert forall j :: 0 <= j < |usuarios| && j != i ==> usuarios[j]["email"] != usuarios[i]["email"];
  }

  /** JavaScript's `===` between a value from the request and a column:
      objects and arrays are never the same reference as a column's value,
      primitives compare by value, and a missing column is `undefined`. */
  predicate Identicos(a: Json, b: Option<Json>)
  {
    b.Some? && !a.JObject? && !a.JArray? && a == b.value
  }

  /** `user.disciplinas?.nombre`. */
  function NombreDisciplina(f: Fila): Option<Json>
  {
    if "disciplinas" !in f || f["disciplinas"] == JNull then None
    else Prop(f["disciplinas"], "nombre").value
  }

  /** `{ ...userWithoutPassword, disciplina: user.disciplinas?.nombre }`,
      as serialised: an `undefined` name leaves `disciplina` out. */
  function Datos(f: Fila): (d: map<string, Json>)
    ensures "password" !in d
    ensures forall k :: k != "password" && k != "disciplina" ==> (k in d <==> k in f)
    ensures forall k :: k in d && k != "disciplina" ==> d[k] == f[k]
    ensures "disciplina" in d <==> NombreDisciplina(f).Some?
    ensures "disciplina" in d ==> d["disciplina"] == NombreDisciplina(f).value
  {
    var sin := f - {"password"};
    match NombreDisciplina(f)
    case Some(n) => sin["disciplina" := n]
    case None => sin - {"disciplina"}
  }

  function Falla(status: int, mensaje: string): Respuesta
  {
    Respuesta(status, Error(mensaje), None)
  }

  /** The handler. `cuerpo` is the outcome of `request.json()`,
      `consultaOk` whether the lookup succeeds, and `produccion` whether
      `NODE_ENV` is `'production'`. A truthy email that is not a string
      is refused by the query builder, which throws. */
  function Post(cuerpo: Db.Outcome<Json>, usuarios: seq<Fila>, consultaOk: bool, produccion: bool): (r: Respuesta)
    ensures r.status in {200, 400, 401, 500}
    ensures r.status != 200 ==> r.cookie.None? && r.cuerpo.Error?
    ensures r.status == 401 ==> r == Falla(401, CredencialesInvalidas)
    ensures r.status == 500 ==> r == Falla(500, ErrorInterno)
    ensures r.status == 200 ==> (r.cuerpo.Usuario? && r.cookie.Some? &&
              r.cookie.value == Cookie(NombreCookie, r.cuerpo.datos, "/", true, "strict", produccion, 604800))
  {
    if cuerpo.Threw? || cuerpo.value == JNull then Falla(500, ErrorInterno)
    else
      var email := Prop(cuerpo.value, "email").value;
      var password := Prop(cuerpo.value, "password").value;
      if email.None? || !TruthyJson(email.value) || password.None? || !TruthyJson(password.value) then
        Falla(400, Requeridos)
      else if !email.value.JString? || !consultaOk then Falla(500, ErrorInterno)
      else
        var user := Buscar(usuarios, email.value.s);
        if user.None? then Falla(401, CredencialesInvalidas)
        else
          var f := user.value;
          if !Identicos(password.value, if "password" in f then Some(f["password"]) else None) then
            Falla(401, CredencialesInvalidas)
          else
            var d := Datos(f);
            Respuesta(200, Usuario(d), Some(Cookie(NombreCookie, d, "/", true, "strict", produccion, SieteDias)))
  }

  /** A body object. */
  function Credenciales(email: Json, password: Json): (c: Json)
    ensures Prop(c, "email") == Some(Some(email)) && Prop(c, "password") == Some(Some(password))
  {
    var fields := [("email", email), ("password", password)];
    assert fields[..1] == [("email", email)];
    assert LastValue(fields, "email") == LastValue([("email", email)], "email");
    JObject(fields)
  }

  /** A missing or falsy email or password is 400 before the table is
      consulted: neither the table nor the query's fate matters. */
  lemma FaltanDatosEs400(email: Json, password: Json, u1: seq<Fila>, u2: seq<Fila>, ok1: bool, ok2: bool, p: bool)
    requires !TruthyJson(email) || !TruthyJson(password)
    ensures Post(Db.Done(Credenciales(email, password)), u1, ok1, p) ==
            Post(Db.Done(Credenciales(email, password)), u2, ok2, p) == Falla(400, Requeridos)
  {
  }

  /** Over a valid table, a login succeeds exactly when a row has the
      email and its password is the given string, character for character;
      an unknown email and a wrong password get the same 401 answer. The
      answer then is that row, through `Datos`. */
  lemma ExitoSiiCoincide(usuarios: seq<Fila>, email: string, password: string, p: bool)
    requires TablaValida(usuarios) && email != "" && password != ""
    ensures var r := Post(Db.Done(Credenciales(JString(email), JString(password))), usuarios, true, p);
      (r.status == 200 <==>
         exists i :: 0 <= i < |usuarios| && TieneEmail(usuarios[i], email) &&
                     usuarios[i]["password"] == JString(password)) &&
      (r.status != 200 ==> r == Falla(401, CredencialesInvalidas)) &&
      (forall i :: 0 <= i < |usuarios| && TieneEmail(usuarios[i], email) && r.status == 200 ==>
         r.cuerpo == Usuario(Datos(usuarios[i])))
  {
    var c := Credenciales(JString(email), JString(password));
    var r := Post(Db.Done(c), usuarios, true, p);
    var user := Buscar(usuarios, email);
    if user.None? {
      assert r == Falla(401, CredencialesInvalidas);
    } else {
      var k :| 0 <= k < |usuarios| && usuarios[k] == user.value && TieneEmail(user.value, email);
      BuscarUnico(usuarios, email, k);
      assert forall i :: 0 <= i < |usuarios| && TieneEmail(usuarios[i], email) ==> i == k;
      if usuarios[k]["password"] == JString(password) {
        assert r.status == 200 && r.cuerpo == Usuario(Datos(usuarios[k]));
      } else {
        assert r == Falla(401, CredencialesInvalidas);
      }
    }
  }

  /** What is sent back, and stored in the cookie, never holds the
      password, and keeps every other column of the row. */
  lemma SinPassword(cuerpo: Db.Outcome<Json>, usuarios: seq<Fila>, ok: bool, p: bool)
    ensures var r := Post(cuerpo, usuarios, ok, p);
      r.status == 200 ==>
        "password" !in r.cuerpo.datos && "password" !in r.cookie.value.valor &&
        exists i :: 0 <= i < |usuarios| && forall k :: k in usuarios[i] && k != "password" && k != "disciplina" ==>
          k in r.cuerpo.datos && r.cuerpo.datos[k] == usuarios[i][k]
  {
    var r := Post(cuerpo, usuarios, ok, p);
    if r.status == 200 {
      var user := Buscar(usuarios, Prop(cuerpo.value, "email").value.value.s);
      var k :| 0 <= k < |usuarios| && usuarios[k] == user.value;
      assert r.cuerpo.datos == Datos(usuarios[k]);
    }
  }
}
