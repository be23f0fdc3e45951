/** The registration upload endpoint `src/routes/api/inscripciones/+server.ts`:
    the unique name given to an uploaded file, the loop that sorts every
    multipart form entry into JSON, integer, file or plain handling, and
    the status of the response. Randomness, the clock, `JSON.parse`,
    `parseInt` and the file system are parameters. */
module Upload {
  import opened Common
  import opened Domain
  import Db

  // ----------------------------------------------------------------------
  // Path pieces (`path.basename` / `path.extname` on POSIX)

  /** Index of the last `c` in `s`, or -1 when there is none. */
  function LastIndex(s: string, c: char): (k: int)
    ensures -1 <= k < |s|
    ensures k >= 0 ==> s[k] == c
    ensures forall i :: k < i < |s| ==> s[i] != c
  {
    if s == [] then -1
    else if s[|s| - 1] == c then |s| - 1
    else LastIndex(s[..|s| - 1], c)
  }

  /** The last path component: everything after the last `/`. */
  function LastComponent(p: string): (c: string)
    ensures |c| <= |p| && c == p[|p| - |c|..]
    ensures forall i :: 0 <= i < |c| ==> c[i] != '/'
    ensures |c| == |p| || p[|p| - |c| - 1] == '/'
  {
    var k := LastIndex(p, '/');
    var c := p[k + 1..];
    forall i | 0 <= i < |c|
      ensures c[i] != '/'
    {
      assert c[i] == p[k + 1 + i];
    }
    c
  }

  /** The extension of a path component, as `path.extname` takes it: from
      its last `.` to its end, or `''` when it has no `.`, starts with its
      only leading dot run up to that `.` (a dot file such as `.env`), or is
      `..`. */
  function ExtOf(c: string): (e: string)
    ensures |e| <= |c| && e == c[|c| - |e|..]
    ensures e == "" || (e[0] == '.' && forall i :: 1 <= i < |e| ==> e[i] != '.')
    ensures var k := LastIndex(c, '.');
      (e != "" <==> k > 0 && c != "..") && (e != "" ==> e == c[k..])
  {
    var k := LastIndex(c, '.');
    if k <= 0 || c == ".." then "" else c[k..]
  }

  /** `path.extname(p)`: the extension of the last component. */
  function ExtName(p: string): (e: string)
    ensures var c := LastComponent(p); var k := LastIndex(c, '.');
      |e| <= |c| && e == c[|c| - |e|..] &&
      (e != "" <==> k > 0 && c != "..") && (e != "" ==> e == c[k..])
  {
    ExtOf(LastComponent(p))
  }

  /** `path.basename(p, path.extname(p))`: the last component without its
      extension. */
  function BaseName(p: string): (b: string)
  {
    var c := LastComponent(p);
    c[..|c| - |ExtName(p)|]
  }

  /** Base name and extension split the last component without losing or
      adding anything. */
  lemma BaseAndExt(p: string)
    ensures BaseName(p) + ExtName(p) == LastComponent(p)
    ensures forall i :: 0 <= i < |BaseName(p)| ==> BaseName(p)[i] != '/'
  {
    var c := LastComponent(p);
    var e := ExtName(p);
    assert |e| <= |c| && e == c[|c| - |e|..];
    SplitAt(c, |c| - |e|);
    forall i | 0 <= i < |BaseName(p)|
      ensures BaseName(p)[i] != '/'
    {
      assert BaseName(p)[i] == c[i];
    }
  }

  /** A sequence is its prefix followed by the rest. */
  lemma SplitAt(s: string, n: nat)
    requires n <= |s|
    ensures s[..n] + s[n..] == s
  {
  }

  /** A character the sanitiser keeps: `[a-zA-Z0-9]`. */
  predicate Alnum(ch: char)
  {
    ('a' <= ch <= 'z') || ('A' <= ch <= 'Z') || ('0' <= ch <= '9')
  }

  /** `s.replace(/[^a-zA-Z0-9]/g, '_')`. */
  function Underscored(s: string): (r: string)
    ensures |r| == |s|
    ensures forall i :: 0 <= i < |s| ==> r[i] == if Alnum(s[i]) then s[i] else '_'
  {
    if s == [] then [] else Underscored(s[..|s| - 1]) + [if Alnum(s[|s| - 1]) then s[|s| - 1] else '_']
  }

  /** `.substring(0, 20)` of the above. */
  function Sanitize(s: string): (r: string)
    ensures |r| == if |s| < 20 then |s| else 20
    ensures forall i :: 0 <= i < |r| ==> Alnum(r[i]) || r[i] == '_'
    ensures forall i :: 0 <= i < |r| ==> (Alnum(s[i]) ==> r[i] == s[i])
    ensures forall i :: 0 <= i < |r| ==> r[i] == if Alnum(s[i]) then s[i] else '_'
  {
    var u := Underscored(s);
    if |u| <= 20 then u else u[..20]
  }

  /** `${u}-${d}-${s}${e}`: where each of the four pieces and the two
      dashes sit in the joined text. */
  function Join(u: string, d: string, s: string, e: string): (r: string)
    ensures |r| == |u| + 1 + |d| + 1 + |s| + |e|
    ensures r[..|u|] == u && r[|u|] == '-' && r[..|u| + 1] == u + "-"
    ensures r[|u| + 1..|u| + 1 + |d|] == d && r[|u| + 1 + |d|] == '-'
    ensures r[|u| + 2 + |d|..|r| - |e|] == s
    ensures r[|r| - |e|..] == e
    ensures forall i :: |u| + 1 <= i < |u| + 1 + |d| ==> r[i] == d[i - |u| - 1]
  {
    var p := u + "-";
    var q := p + d + "-";
    var r := q + s + e;
    assert r == u + ("-" + d + "-" + s + e);
    assert r == p + (d + "-" + s + e);
    assert r == (q + s) + e;
    assert r == p + d + ("-" + s + e);
    assert r[|p|..|p| + |d|] == d;
    assert r[|q| - 1] == '-';
    assert r[|q|..|q| + |s|] == s;
    r
  }

  /** `getUniqueFileName(name)`: the UUID, the millisecond clock and the
      sanitised base name joined by `-`, followed by the original extension. */
  function UniqueFileName(name: string, uuid: string, now: nat): (r: string)
    ensures |r| == |uuid| + 1 + |NatToString(now)| + 1 + |Sanitize(BaseName(name))| + |ExtName(name)|
    ensures r[..|uuid|] == uuid && r[..|uuid| + 1] == uuid + "-"
    ensures r[|r| - |ExtName(name)|..] == ExtName(name)
    ensures forall i :: |uuid| + 1 <= i < |uuid| + 1 + |NatToString(now)| ==> '0' <= r[i] <= '9'
  {
    Join(uuid, NatToString(now), Sanitize(BaseName(name)), ExtName(name))
  }

  /** The middle of the name, after the UUID and its '-': the decimal
      instant, a second '-', then the sanitised base name up to the
      extension. */
  lemma UniqueFileNamePartes(name: string, uuid: string, now: nat)
    ensures var r := UniqueFileName(name, uuid, now); var d := NatToString(now);
      r[|uuid| + 1..|uuid| + 1 + |d|] == d && r[|uuid| + 1 + |d|] == '-' &&
      r[|uuid| + 2 + |d|..|r| - |ExtName(name)|] == Sanitize(BaseName(name))
  {
    var r := Join(uuid, NatToString(now), Sanitize(BaseName(name)), ExtName(name));
    assert UniqueFileName(name, uuid, now) == r;
  }

  /** Two uploads whose UUIDs differ but have the same length (as every
      UUID v4 text does) get different file names. */
  lemma UniqueFileNameDistinct(n1: string, n2: string, u1: string, u2: string, t1: nat, t2: nat)
    requires |u1| == |u2| && u1 != u2
    ensures UniqueFileName(n1, u1, t1) != UniqueFileName(n2, u2, t2)
  {
    var r1 := UniqueFileName(n1, u1, t1);
    var r2 := UniqueFileName(n2, u2, t2);
    assert r1[..|u1|] == u1 && r2[..|u2|] == u2;
  }

  // ----------------------------------------------------------------------
  // Form entries

  /** The value of a multipart entry: text, or a file with its name. */
  datatype FormValue = Text(s: string) | Upload(fileName: string)

  /** What the handler stores under a key of `inscripcionData`. */
  datatype Campo =
    | CJson(j: Json)           // a parsed JSON array field
    | CInt(n: Option<int>)     // `parseInt` of the text; `None` is NaN
    | CRuta(ruta: string)      // the saved file's relative path
    | CValor(v: FormValue)     // the entry's value as it came

  /** `value as string` as JavaScript evaluates it when the value is used
      as a string: a file turns into `'[object File]'`. */
  function AsString(v: FormValue): string
  {
    match v
    case Text(s) => s
    case Upload(_) => "[object File]"
  }

  predicate EndsWith(s: string, suffix: string)
  {
    |suffix| <= |s| && s[|s| - |suffix|..] == suffix
  }

  /** Keys whose value is a JSON-encoded member list. */
  predicate EsClaveJson(k: string)
  {
    EndsWith(k, "Escena") || k == "elenco" || k == "integrantes" || k == "colaboradores" || k == "equipoTecnico"
  }

  /** Keys whose value is parsed as an integer. */
  predicate EsClaveEntera(k: string)
  {
    k == "disciplina_id" || k == "usuario_id"
  }

  /** The value stored for entry `k = v`; `parse` is `JSON.parse` (`None`
      when it throws), `parseInt` is `parseInt`, and a file is named with
      `uuid` and `now`. */
  function Clasificar(k: string, v: FormValue, parse: string -> Option<Json>, parseInt: string -> Option<int>,
                      uuid: string, now: nat): (c: Campo)
    ensures EsClaveJson(k) ==> c.CJson? && c.j == (if parse(AsString(v)).Some? then parse(AsString(v)).value else JArray([]))
    ensures !EsClaveJson(k) && k == "archivoContenido" && v.Upload? ==>
              c.CRuta? && |c.ruta| >= 8 && c.ruta[..8] == "uploads/" && c.ruta[8..] == UniqueFileName(v.fileName, uuid, now)
    ensures !EsClaveJson(k) && !(k == "archivoContenido" && v.Upload?) && EsClaveEntera(k) ==> c == CInt(parseInt(AsString(v)))
    ensures !EsClaveJson(k) && !(k == "archivoContenido" && v.Upload?) && !EsClaveEntera(k) ==> c == CValor(v)
  {
    if EsClaveJson(k) then
      match parse(AsString(v))
      case Some(j) => CJson(j)
      case None => CJson(JArray([]))
    else if k == "archivoContenido" && v.Upload? then
      var r := "uploads/" + UniqueFileName(v.fileName, uuid, now);
      assert r[..8] == "uploads/" && r[8..] == UniqueFileName(v.fileName, uuid, now);
      CRuta(r)
    else if EsClaveEntera(k) then CInt(parseInt(AsString(v)))
    else CValor(v)
  }

  /** Whether entry `e` is a file upload that must be written to disk. */
  predicate EsArchivo(e: (string, FormValue))
  {
    !EsClaveJson(e.0) && e.0 == "archivoContenido" && e.1.Upload?
  }

  /** The classification of the handler, with the file of entry `i`
      named with `uuids(i)` and `clock(i)`. */
  function Clasificador(parse: string -> Option<Json>, parseInt: string -> Option<int>,
                        uuids: nat -> string, clock: nat -> nat): (nat, string, FormValue) -> Campo
  {
    (i: nat, k: string, v: FormValue) => Clasificar(k, v, parse, parseInt, uuids(i), clock(i))
  }

  /** `inscripcionData` after the loop over `entries`, entry `i` being
      stored as `f(i, key, value)`: each entry in turn sets its key, so a
      later entry overwrites an earlier one. */
  function Recolectar(entries: seq<(string, FormValue)>, f: (nat, string, FormValue) -> Campo): map<string, Campo>
  {
    if entries == [] then map[]
    else
      var n := |entries| - 1;
      Recolectar(entries[..n], f)[entries[n].0 := f(n, entries[n].0, entries[n].1)]
  }

  /** Every key of the form appears in the record, and no other. */
  lemma {:induction false} RecolectarClaves(entries: seq<(string, FormValue)>, f: (nat, string, FormValue) -> Campo, k: string)
    ensures k in Recolectar(entries, f) <==> exists i :: 0 <= i < |entries| && entries[i].0 == k
  {
    if entries != [] {
      var n := |entries| - 1;
      RecolectarClaves(entries[..n], f, k);
      if entries[n].0 != k && exists i :: 0 <= i < |entries| && entries[i].0 == k {
        var i :| 0 <= i < |entries| && entries[i].0 == k;
        assert entries[..n][i].0 == k;
      }
    }
  }

  /** The value of a repeated key comes from its last entry. */
  lemma {:induction false} RecolectarUltimo(entries: seq<(string, FormValue)>, f: (nat, string, FormValue) -> Campo, i: nat)
    requires i < |entries|
    requires forall j :: i < j < |entries| ==> entries[j].0 != entries[i].0
    ensures entries[i].0 in Recolectar(entries, f)
    ensures Recolectar(entries, f)[entries[i].0] == f(i, entries[i].0, entries[i].1)
  {
    var n := |entries| - 1;
    if i < n {
      assert entries[..n][i] == entries[i];
      assert forall j :: i < j < n ==> entries[..n][j] == entries[j];
      RecolectarUltimo(entries[..n], f, i);
    }
  }

  /** The outcome of the entry loop: the record, or the error of the first
      file write that throws. */
  method RecolectarCampos(entries: seq<(string, FormValue)>, parse: string -> Option<Json>, parseInt: string -> Option<int>,
                          uuids: nat -> string, clock: nat -> nat, escrituraOk: bool, errorEscritura: string)
    returns (r: Db.Outcome<map<string, Campo>>)
    ensures r.Threw? <==> !escrituraOk && exists i :: 0 <= i < |entries| && EsArchivo(entries[i])
    ensures r.Threw? ==> r.error == errorEscritura
    ensures r.Done? ==> r.value == Recolectar(entries, Clasificador(parse, parseInt, uuids, clock))
  {
    var f := Clasificador(parse, parseInt, uuids, clock);
    var data: map<string, Campo> := map[];
    var i := 0;
    while i < |entries|
      invariant 0 <= i <= |entries|
      invariant data == Recolectar(entries[..i], f)
      invariant !escrituraOk ==> forall j :: 0 <= j < i ==> !EsArchivo(entries[j])
    {
      var (k, v) := entries[i];
      if EsArchivo(entries[i]) && !escrituraOk {
        assert 0 <= i < |entries| && EsArchivo(entries[i]);
        return Db.Threw(errorEscritura);
      }
      ghost var hecho := entries[..i + 1];
      assert hecho[..i] == entries[..i] && hecho[i] == (k, v);
      assert Recolectar(hecho, f) == data[k := f(i, k, v)];
      data := data[k := f(i, k, v)];
      i := i + 1;
    }
    assert entries[..i] == entries;
    r := Db.Done(data);
  }

  /** The JSON response of the handler. */
  datatype Respuesta<T> = Respuesta(status: int, success: bool, inscripcion: Option<T>, error: Option<string>)

  /** `POST`: the entry loop, then saving through the repository, whose
      outcome is `guardado`; it is only reached when every file was
      written. Success is 201 with the saved record; any thrown error is
      500 with its message. */
  method Post<T>(entries: seq<(string, FormValue)>, parse: string -> Option<Json>, parseInt: string -> Option<int>,
                 uuids: nat -> string, clock: nat -> nat, escrituraOk: bool, errorEscritura: string,
                 guardado: Db.Outcome<T>)
    returns (resp: Respuesta<T>)
    ensures resp.status == 201 || resp.status == 500
    ensures resp.success <==> resp.status == 201
    ensures resp.status == 201 <==>
              (escrituraOk || forall i :: 0 <= i < |entries| ==> !EsArchivo(entries[i])) && guardado.Done?
    ensures resp.status == 201 ==> resp.inscripcion == Some(guardado.value) && resp.error.None?
    ensures resp.status == 500 ==>
              (resp.inscripcion.None? &&
               resp.error == Some(if !escrituraOk && exists i :: 0 <= i < |entries| && EsArchivo(entries[i])
                                  then errorEscritura else guardado.error))
  {
    var datos := RecolectarCampos(entries, parse, parseInt, uuids, clock, escrituraOk, errorEscritura);
    if datos.Threw? {
      return Respuesta(500, false, None, Some(datos.error));
    }
    if guardado.Threw? {
      return Respuesta(500, false, None, Some(guardado.error));
    }
    resp := Respuesta(201, true, Some(guardado.value), None);
  }
}
