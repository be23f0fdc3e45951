# formulario-arandu: a verified model of the registration core

formulario-arandu is a registration portal for artistic submissions. Each
submission, an *inscripción*, belongs to a discipline: dance, theatre, music,
letters, photography, visual arts or audiovisual arts. This project models in
Dafny the server-side core of the portal. It covers:

- **The in-memory repository** (`Inscripciones`, `src/lib/inscripciones.ts`).
  It lists a user's registrations according to their role and sorts them
  newest first. It looks records up, approves and rejects them, hands out
  ids, and saves a new registration with its defaults.
- **The form catalogue** (`Forms`, `src/lib/forms.ts`). It scopes the list by
  the admin flag or the user's discipline, newest first.
- **The logger** (`Logging`, `src/lib/logger.ts`). It is a buffer capped at
  1000 events, with a filter by level.
- **The database adapter** (`Db`, `src/lib/db.ts`). It covers:
  - the SQL text and parameters that `insert`, `update` and `getByConditions`
    build;
  - the row that `getById` returns;
  - the begin, commit, rollback and release protocol of `transaction`;
  - the row that `insertLog` writes.
- **The database-backed repository** (`InscripcionesArtisticas`,
  `src/lib/inscripcionesArtisticas.ts`). It covers:
  - saving a submission: its main row, then one row per member of each of six
    member lists;
  - regrouping those rows by role when the record is read back;
  - approving and rejecting a record;
  - listing records by role;
  - the discipline-name table.

  The three tables are sequences of typed rows in a `Store` class. Every
  insert appends one row.
- **The HTTP handlers**:
  - submitting a registration with an uploaded file (`Upload`,
    `src/routes/api/inscripciones/+server.ts`);
  - listing registrations (`Listar`);
  - rejecting a registration (`Rechazar`);
  - logging in (`Login`).

  Each handler's chain of status-code checks is a function with its outcomes
  stated.

Nondeterministic or external inputs are parameters:

- the clock, UUIDs, `JSON.parse` and `parseInt`;
- whether a database call or a file write throws.

`Common` holds the shared helpers:

- `Option`;
- `Filter` with its lemmas;
- a stable newest-first sort, proved sorted and a permutation;
- JavaScript truthiness;
- decimal rendering of numbers.

`Domain` holds the shared entities: the user, the record state, the member
roles and JSON values.

In these places the code behaves differently from what its own structure
suggests. The model follows the code:

- `guardarInscripcionArtistica` runs its inserts inside `db.transaction`, but
  `db.insert` sends each statement through the pool rather than the
  transaction's connection. Rows written before a failure therefore remain,
  even when only the commit fails. `Store.Guardar` states exactly which rows
  remain.
- Unlike `getInscripciones` and `obtenerInscripciones`, which sort newest
  first, `GET /api/inscripciones/listar` applies no sort. An administrator
  sees the table in storage order.
- The handler `POST /api/inscripciones/rechazar` imports
  `rechazarInscripcionArtistica` from `$lib/server/inscripcionesArtisticas`.
  The model binds it to the function of that name in
  `src/lib/inscripcionesArtisticas.ts` (`Rechazar.PostEn`). It also
  states the handler once for any service, given as a function of the id
  (`Rechazar.Post`).
- `guardarInscripcionArtistica` stores the four `responsable*` fields, which
  the upload handler passes through as plain form keys. Neither the record it
  returns nor `formatearInscripcion` hands them back. The `usuario_id` column
  is never written, because its line is commented out.

## Model

| member | source | states |
|---|---|---|
| Common.NatToStringValue | src/routes/api/inscripciones/+server.ts:32 | the decimal digits written for `Date.now()` read back as that number |
| Domain.Prop | src/routes/api/inscripciones/rechazar/+server.ts:18-19 | reading a property of a parsed body throws exactly when the body is `null`. On an object it is the last value given for that key, or undefined when the key is absent. On any other value it is undefined |
| Inscripciones.IndexOf | src/lib/inscripciones.ts:336 | `findIndex`: -1 exactly when no record has the id, otherwise the first record that has it |
| Inscripciones.MaxIdOrZero | src/lib/inscripciones.ts:358-359 | `Math.max(...ids, 0)`: not negative, at least every id, and either 0 or an id that occurs |
| Inscripciones.NuevaInscripcion | src/lib/inscripciones.ts:364-409 | the new record has the given id, state pending, both dates equal to the save instant, and each falsy field replaced by its default ('Sin nombre', 'No especificada', 0, '', 'archivo', user 1); other fields are copied |
| Inscripciones.Table.constructor | src/lib/inscripciones.ts:60 | the sample table starts with the given records, with unique ids and no edit flags |
| Inscripciones.Table.GetInscripciones | src/lib/inscripciones.ts:296-327 | no user gets []. An administrator gets a permutation of every record, flagged editable exactly when pending. A user of a discipline gets exactly that discipline's records, unflagged. Anyone else gets []. The result is sorted newest first |
| Inscripciones.Table.GetInscripcionPorId | src/lib/inscripciones.ts:330-332 | undefined exactly when no record has the id; otherwise a stored record with that id |
| Inscripciones.Table.GenerarNuevoId | src/lib/inscripciones.ts:357-360 | greater than every id in the table, and one more than the largest id (1 for an empty table) |
| Inscripciones.Table.SetEstado | src/lib/inscripciones.ts:335-354 | an absent id leaves the table unchanged and returns undefined. Otherwise only that record's state and modification date change, and the record is returned |
| Inscripciones.Table.AprobarInscripcion | src/lib/inscripciones.ts:335-343 | as `SetEstado`, with the state approved |
| Inscripciones.Table.RechazarInscripcion | src/lib/inscripciones.ts:346-354 | as `SetEstado`, with the state rejected |
| Inscripciones.Table.GuardarInscripcion | src/lib/inscripciones.ts:363-415 | appends the defaulted record under the next id, and the record is then found by that id |
| Forms.GetFormularios | src/lib/forms.ts:187-203 | an administrator gets every form. A user of a discipline gets exactly that discipline's forms. Anyone else gets []. The result is a permutation in every case and sorted newest first |
| Forms.GetFormulariosIgnoresUserAndDiscipline | src/lib/forms.ts:187-203 | the user id never changes the result, and the discipline does not change an administrator's result |
| Forms.DisciplineListingSize | src/lib/forms.ts:193-199 | a user of a discipline sees as many forms as that discipline has, and none when it has none |
| Logging.PushedFacts | src/lib/logger.ts:53-58 | a push keeps the buffer at most 1000 long and puts the new event last. When the buffer was full, exactly the oldest event is dropped |
| Logging.PushedByLevel | src/lib/logger.ts:53-58 | after a push, the events of a level are the earlier ones still kept, followed by the new event if it has that level |
| Logging.Logger.constructor | src/lib/logger.ts:29-33 | the buffer starts empty |
| Logging.Logger.Log | src/lib/logger.ts:44-67 | the buffer becomes the old buffer with the timestamped event pushed, and the cap holds |
| Logging.Logger.LogInfo | src/lib/logger.ts:70-72 | `Log` at level info |
| Logging.Logger.LogWarning | src/lib/logger.ts:74-76 | `Log` at level warning |
| Logging.Logger.LogError | src/lib/logger.ts:78-80 | `Log` at level error |
| Logging.Logger.LogDebug | src/lib/logger.ts:82-84 | `Log` at level debug |
| Logging.Logger.GetLogs | src/lib/logger.ts:135-137 | returns the buffer's contents and changes nothing |
| Logging.Logger.GetLogsByLevel | src/lib/logger.ts:140-142 | the buffered events of that level, in buffer order, with their repetitions (the `Filter` of the buffer), and no others |
| Logging.Logger.GetErrorLogs | src/lib/logger.ts:145-147 | the buffered error events, in buffer order (the `Filter` of the buffer at level error) |
| Logging.Logger.ClearLogs | src/lib/logger.ts:150-152 | the buffer becomes empty |
| Db.Keys | src/lib/db.ts:44 | `Object.keys`: the keys in insertion order |
| Db.Values | src/lib/db.ts:46 | `Object.values`: the values in the same order |
| Db.Assignments | src/lib/db.ts:68 | one `key = ?` per key, in order |
| Db.InsertStatementFacts | src/lib/db.ts:42-49 | the INSERT text has exactly one `?` per bound value, and the values are the data's values in key order |
| Db.UpdateStatementFacts | src/lib/db.ts:65-72 | the UPDATE text has one `?` per key plus the trailing `WHERE id = ?`, and the bound values are the data's values followed by the id |
| Db.SelectStatementFacts | src/lib/db.ts:103-110 | the SELECT text has one `?` per condition, and the values follow the key order |
| Db.FirstRow | src/lib/db.ts:89-90 | null exactly when no row matched; otherwise the first row |
| Db.TransactionTrace | src/lib/db.ts:124-139 | the connection always begins first and is released last, exactly once. The callback runs only after a successful begin, and commit is attempted only when the callback returned. The result resolves exactly when begin, callback and commit all succeed. Any failure rolls back and rethrows that failure, or the rollback's own error |
| Db.TransactionResult | src/lib/db.ts:124-139 | `transaction` resolves exactly when acquiring, begin, the callback and commit all succeed, and then to the callback's value. Otherwise it throws the acquire error, or else the rollback's error, or else the first failure among begin, callback and commit |
| Db.Connection.constructor | src/lib/db.ts:125 | a freshly acquired connection has had no calls made on it |
| Db.Connection.Call | src/lib/db.ts:128-137 | records one call on the connection |
| Db.Transaction | src/lib/db.ts:124-139 | when acquiring the connection fails, nothing is called on it and that error propagates. Otherwise the calls made and the result are those of `TransactionTrace`. In every case the result is `TransactionResult` |
| Db.LogData | src/lib/db.ts:150-155 | the log row has the columns `nivel`, `mensaje`, `detalles` and `ip`. Falsy details and a falsy ip are stored as NULL; truthy details are stored as JSON text |
| Db.AfterInsertLog | src/lib/db.ts:148-161 | a successful insert appends the log row. A failed one is swallowed and leaves the table unchanged |
| Db.InsertLogStatement | src/lib/db.ts:157 | the log INSERT binds exactly four placeholders |
| InscripcionesArtisticas.Buscar | src/lib/inscripcionesArtisticas.ts:464 | `find` by id: found exactly when some entry has the id, and then that entry's name |
| InscripcionesArtisticas.DisciplinaNombre | src/lib/inscripcionesArtisticas.ts:453-466 | the names of ids 1 to 7, and 'No especificada' for any other id or a missing one |
| InscripcionesArtisticas.ReplaceFirst | src/lib/inscripcionesArtisticas.ts:232 | `replace('T', ' ')` changes only the first 'T' and keeps the length |
| InscripcionesArtisticas.MysqlTimestamp | src/lib/inscripcionesArtisticas.ts:232 | at most 19 characters: the ISO prefix with its first 'T' made a space |
| InscripcionesArtisticas.MysqlTimestampOfIso | src/lib/inscripcionesArtisticas.ts:231-232 | for an ISO instant the text is `YYYY-MM-DD HH:MM:SS`: 19 characters, a space at index 10, and the date and time copied |
| InscripcionesArtisticas.NuevoRegistro | src/lib/inscripcionesArtisticas.ts:20-56 | the inserted row is pending and has no user. It is a group cast (`es_concertado`) exactly when an `elenco` is given. It keeps the form's name, discipline, email and instants |
| InscripcionesArtisticas.NuevoRegistroTextos | src/lib/inscripcionesArtisticas.ts:20-56 | the stored text columns are exactly the known text fields the form carries, each with the form's value |
| InscripcionesArtisticas.NuevoRegistroResponsable | src/lib/inscripcionesArtisticas.ts:52-55 | the stored `responsable*` columns are exactly the ones the form carries, each with the form's value |
| InscripcionesArtisticas.RowsOf | src/lib/inscripcionesArtisticas.ts:65-73 | one member row per member of a list |
| InscripcionesArtisticas.FlattenRolesPrefix | src/lib/inscripcionesArtisticas.ts:64-143 | the rows of the first lists are a prefix of the rows of all six |
| InscripcionesArtisticas.FlattenRolesIds | src/lib/inscripcionesArtisticas.ts:64-143 | every member row carries the new registration's id |
| InscripcionesArtisticas.FlattenRolesSnoc | src/lib/inscripcionesArtisticas.ts:64-143 | each further list adds its rows at the end |
| InscripcionesArtisticas.Regroup | src/lib/inscripcionesArtisticas.ts:348-376 | the members read back for one registration and role are at most as many as the rows, and carry no `rol` for the roles whose objects have none |
| InscripcionesArtisticas.Strip | src/lib/inscripcionesArtisticas.ts:398-448 | a list as read back drops `rol` exactly for the roles whose objects have none |
| InscripcionesArtisticas.Formatear | src/lib/inscripcionesArtisticas.ts:346-450 | the record keeps the row's id and state, names its discipline, and has all six member lists regrouped from the rows |
| InscripcionesArtisticas.FilterOwnRows | src/lib/inscripcionesArtisticas.ts:348-351 | the query for a registration and role returns all the rows written for that list |
| InscripcionesArtisticas.FilterOtherRows | src/lib/inscripcionesArtisticas.ts:348-376 | the query for one role finds none of another role's rows |
| InscripcionesArtisticas.FilterFlattenRoles | src/lib/inscripcionesArtisticas.ts:348-376 | over the rows of distinct roles, selecting one role yields exactly that role's rows |
| InscripcionesArtisticas.MapRowsOf | src/lib/inscripcionesArtisticas.ts:398-448 | mapping one list's rows back to member objects gives the list, with `rol` stripped where the role has none |
| InscripcionesArtisticas.RegroupFlatten | src/lib/inscripcionesArtisticas.ts:64-143 | the round trip: rows written for a submission, read back by role among other registrations' rows, give every member list back |
| InscripcionesArtisticas.Store.GetById | src/lib/inscripcionesArtisticas.ts:227 | `getById`: null exactly when no row has the id; otherwise a stored row with that id |
| InscripcionesArtisticas.Store.InsertLog | src/lib/db.ts:148-161 | only the log table changes, as `AfterInsertLog` says |
| InscripcionesArtisticas.Store.InsertarMiembros | src/lib/inscripcionesArtisticas.ts:65-73 | appends the list's rows up to the number of inserts that succeed, and succeeds exactly when all of them were written |
| InscripcionesArtisticas.Store.InsertarTodos | src/lib/inscripcionesArtisticas.ts:64-143 | the six loops append the flattened rows up to the first failing insert, and succeed exactly when none fails |
| InscripcionesArtisticas.Store.LoopFailure | src/lib/inscripcionesArtisticas.ts:64-143 | after a list fails, the rows written are the flattened prefix that fits the successful inserts, whatever lists follow |
| InscripcionesArtisticas.Store.InsertarRegistro | src/lib/inscripcionesArtisticas.ts:61 | the inscription row is appended under the next auto-increment id, the table stays valid, and the row is then the one found under that id |
| InscripcionesArtisticas.Store.Confirmar | src/lib/inscripcionesArtisticas.ts:146-199 | once every insert succeeded, the row read back is returned projected, one INFO entry is logged, no table row changes, and each member list reads back as submitted |
| InscripcionesArtisticas.Store.Fallar | src/lib/inscripcionesArtisticas.ts:202-217 | a failed save logs one ERROR entry with the error's message and the submitted name and discipline, changes no table row, and rethrows the same error |
| InscripcionesArtisticas.Store.EnTransaccion | src/lib/inscripcionesArtisticas.ts:59-200 | the callback resolves exactly when the main insert, every member insert and the read-back succeed. Rows inserted before a failure remain. On success it returns the projected record, logs INFO, and each member list reads back as submitted. On failure it logs nothing and throws the error |
| InscripcionesArtisticas.Store.Guardar | src/lib/inscripcionesArtisticas.ts:11-218 | The callback runs only once the connection is acquired and the transaction begun. The save succeeds exactly when the callback and the commit succeed, and returns the projected record with one INFO entry. The error thrown is the one `db.transaction` throws. Rows inserted before a failure remain, including after a failed commit. A failure logs ERROR with that error's message, after the INFO entry when only the commit failed |
| InscripcionesArtisticas.Store.Actualizar | src/lib/inscripcionesArtisticas.ts:234-239 | the update rewrites only the rows with that id, keeps the table valid, and the updated row is read back |
| InscripcionesArtisticas.Store.FallarCambio | src/lib/inscripcionesArtisticas.ts:248-252 | the catch block logs one ERROR entry with the serialised error, changes no table row, and rethrows |
| InscripcionesArtisticas.Store.CambiarEstado | src/lib/inscripcionesArtisticas.ts:225-288 | A failed first read logs ERROR and throws, changing nothing. An absent id returns undefined and changes nothing. A failed update logs ERROR and throws, with no row changed. A failed read after the update logs ERROR and throws, with the row updated. Otherwise only that row's state and MySQL timestamp change and INFO is logged. The formatted row is then returned, or, when a member query fails, the error escapes with no ERROR entry |
| InscripcionesArtisticas.Store.Listado | src/lib/inscripcionesArtisticas.ts:299-319 | the formatted rows read, as a permutation, sorted newest first |
| InscripcionesArtisticas.Store.ListadoAlcance | src/lib/inscripcionesArtisticas.ts:296-309 | No user gets []. An administrator gets as many records as there are rows. A user of a discipline gets exactly that discipline's rows. Anyone else gets [] |
| InscripcionesArtisticas.Store.ListadoMembership | src/lib/inscripcionesArtisticas.ts:304-314 | a record is listed exactly when it is the formatted image of a row of the user's discipline |
| InscripcionesArtisticas.Store.ObtenerInscripciones | src/lib/inscripcionesArtisticas.ts:295-325 | No user, and a non-administrator without a discipline, get [] with no query and no log entry. A successful query returns `Listado` and leaves the tables unchanged. A failed one logs ERROR with the serialised error and returns [] |
| Upload.LastComponent | src/routes/api/inscripciones/+server.ts:28 | a suffix of the path with no '/', preceded by a '/' unless it is the whole path |
| Upload.ExtName | src/routes/api/inscripciones/+server.ts:26 | `path.extname`: a suffix of the last path component; non-empty exactly when the last component has a '.' after its first character and is not '..', and then the component from its last '.' on |
| Upload.BaseAndExt | src/routes/api/inscripciones/+server.ts:26-28 | the base name followed by the extension is the last path component |
| Upload.Underscored | src/routes/api/inscripciones/+server.ts:30 | every character other than an ASCII letter or digit becomes '_' |
| Upload.Sanitize | src/routes/api/inscripciones/+server.ts:30 | the first 20 characters (or all, when fewer) of the name, each letter and digit kept in place and every other character made '_' |
| Upload.UniqueFileName | src/routes/api/inscripciones/+server.ts:24-33 | the name starts with the UUID and '-', followed by decimal digits, and ends with the original extension; its length is the sum of its pieces and the two separators |
| Upload.Join | src/routes/api/inscripciones/+server.ts:32 | the template `${u}-${d}-${s}${e}` holds `u`, '-', `d`, '-', `s` and `e` at consecutive positions, and its length is the sum of the pieces and the two dashes |
| Upload.UniqueFileNamePartes | src/routes/api/inscripciones/+server.ts:32 | after the UUID and its '-', the name holds the decimal digits of the instant, a second '-', and the sanitized base name up to the extension |
| Upload.UniqueFileNameDistinct | src/routes/api/inscripciones/+server.ts:32 | two different UUIDs of equal length give different names, whatever the file names and instants |
| Upload.Clasificar | src/routes/api/inscripciones/+server.ts:44-83 | Member-list keys are parsed as JSON, with `[]` when parsing fails. A file under `archivoContenido` becomes its `uploads/` path. `disciplina_id` and `usuario_id` go through `parseInt`. Every other value is copied |
| Upload.RecolectarClaves | src/routes/api/inscripciones/+server.ts:42-84 | the collected object has exactly the keys of the form entries |
| Upload.RecolectarUltimo | src/routes/api/inscripciones/+server.ts:42-84 | a repeated key keeps the value of its last entry |
| Upload.RecolectarCampos | src/routes/api/inscripciones/+server.ts:42-84 | the loop throws exactly when a file is submitted and the write fails, with that error. Otherwise it builds the collected object |
| Upload.Post | src/routes/api/inscripciones/+server.ts:35-105 | 201 with the saved record exactly when every file write and the save succeed. Otherwise 500 with the message of the first failure |
| Listar.Resumir | src/routes/api/inscripciones/listar/+server.ts:7-22 | the thirteen fields are copied, except that an empty or missing description, link or file name is left out |
| Listar.ResumirTodos | src/routes/api/inscripciones/listar/+server.ts:58-60 | every row is projected in order, and the map throws exactly when some row has no related discipline |
| Listar.Get | src/routes/api/inscripciones/listar/+server.ts:25-71 | No user gets 401. A non-administrator without a discipline gets 200 with []. Every 500 is 'Error al obtener las inscripciones' with the failure's message |
| Listar.AdminVeTodo | src/routes/api/inscripciones/listar/+server.ts:36-42 | an administrator gets every row projected, in storage order, with no sort |
| Listar.DisciplinaVeLoSuyo | src/routes/api/inscripciones/listar/+server.ts:43-52 | a user of a discipline gets exactly the projections of that discipline's rows, in storage order |
| Listar.FalloSinListado | src/routes/api/inscripciones/listar/+server.ts:63-70 | a failed query, or one row without its discipline, gives the 500 error and lists nothing |
| Rechazar.Verificar | src/routes/api/inscripciones/rechazar/+server.ts:9-26 | a missing or non-admin user gets 403. The service is called exactly for an administrator whose body parses and whose `id` is numeric, and with that id. Every early answer is an error |
| Rechazar.Resultado | src/routes/api/inscripciones/rechazar/+server.ts:29-54 | undefined from the service gives 404 'Inscripción no encontrada'. A record gives 200 with success and the record. A thrown error gives 500 with its message |
| Rechazar.Post | src/routes/api/inscripciones/rechazar/+server.ts:6-55 | success only for an administrator, and every 404 is 'Inscripción no encontrada' |
| Rechazar.SinPermisoEsSiempre403 | src/routes/api/inscripciones/rechazar/+server.ts:9-15 | a missing or non-admin user gets the same 403, whatever the body and the service |
| Rechazar.IdNoNumericoEs400 | src/routes/api/inscripciones/rechazar/+server.ts:19-26 | a non-numeric id gives 400 'ID de inscripción inválido', and the service is not consulted |
| Rechazar.PostEn | src/routes/api/inscripciones/rechazar/+server.ts:29 | An early answer leaves the store unchanged. After the checks, the answer is 404 exactly when the first read succeeds and the id is absent, and a 200 carries the record in state rejected. Once the service runs, the member rows and the next id are unchanged, and after a 200 the store is the old one with that row's state set to rejected and its modification time set to the MySQL form of the instant |
| Login.Buscar | src/routes/api/auth/login/+server.ts:15-20 | `findUnique` by email: found exactly when a row has the email, and then that row |
| Login.BuscarUnico | src/routes/api/auth/login/+server.ts:15-20 | in a table with unique emails, the row found is the one row with that email |
| Login.Datos | src/routes/api/auth/login/+server.ts:43-48 | the returned user is the row without `password`, with every other column kept. `disciplina` is present exactly when the discipline's name is defined, and then it holds that name |
| Login.Post | src/routes/api/auth/login/+server.ts:7-66 | The status is 200, 400, 401 or 500. Every 401 is 'Credenciales inválidas' and every 500 is 'Error interno del servidor'. A 200 sets the cookie `user_session` to the returned object, with path '/', httpOnly, sameSite strict, secure in production and a max age of 604800 seconds |
| Login.FaltanDatosEs400 | src/routes/api/auth/login/+server.ts:11-13 | a falsy email or password gives 400 'Email y contraseña son requeridos', whatever the table and the lookup |
| Login.ExitoSiiCoincide | src/routes/api/auth/login/+server.ts:22-40 | login succeeds exactly when a row has the email and its password is the same string. An unknown email and a wrong password get the same 401. A success returns that row through `Datos` |
| Login.SinPassword | src/routes/api/auth/login/+server.ts:43-60 | the response and the cookie never hold the password, and they keep every other column of the matching row |

## Left out

- The shadow copy of error events in the browser's storage is left out. So is the console output of the logger (`src/lib/logger.ts:87-132`), because both are I/O.
- The `getInstance` singleton is left out. The logger is one `Logger` object.
- The logger calls inside the database adapter, the repositories and the handlers are left out. These are in-memory events with no effect on results, and the log table itself is modelled.
- `query` and `pool.query` are left out. The database server is not modelled: its tables are the `Store`'s sequences, and whether a call throws is a parameter of the operation that makes it.
- The store returns rows in insertion order. The SQL statements have no `ORDER BY`, so a real server may return them in another order. `RegroupFlatten` and the member lists that `Formatear` builds rely on that order.
- `getById` after the inserts in `guardarInscripcionArtistica`, when it does not throw, is assumed to return the row just inserted. Column defaults are assumed too: the state is pending and both dates are the current instant, passed as parameters.
- The file contents that `writeFile` stores are left out, and so is the `static/uploads` directory setup. Only whether the write succeeds is modelled.
- `request.formData()` failing is left out.
- The clock, `crypto.randomUUID`, `JSON.parse`, `parseInt` and `JSON.stringify` are parameters, or are modelled by the value they serialise.
- `Upload.Post` does not model converting the form object to the repository's input. The save outcome is a parameter.
- `Upload.Sanitize` treats a string as a sequence of characters. It does not model JavaScript's UTF-16 code units, where a character outside the BMP counts twice toward the 20-character cut.
- `Upload.LastComponent` does not model how Node's `path.basename` strips trailing slashes.
- The sample data tables (`mockInscripciones`, `mockFormularios`) are given as the initial state, not as literal data.
- `src/lib/services/inscripcionesService.ts` is not part of this model, and neither are the detail, approval, file-serving, logout and session routes. None of them belongs to the core.
- bcrypt hashing is left out because the code compares passwords in plain text. The model follows the code.
- How `JSON.stringify` writes a thrown value is a parameter (`errorJson`). It is `{}` for a plain `Error` and holds the enumerable fields of a driver error. The save's ERROR entry stores the error's message, as the code does.
- `Login.Buscar` compares emails as exact strings. The lookup `findUnique({ where: { email } })` runs in MySQL, where the column's collation decides equality, and MySQL's default collations ignore case. A differently-cased email that the program finds therefore gets 401 in the model. So `Login.ExitoSiiCoincide` holds under exact-match comparison only, and the uniqueness `Login.TablaValida` requires is exact-match uniqueness.
- `Login.Post` takes a row as a map from column to JSON value. The order of keys in the serialised object, and how dates serialise, are not modelled.
- `Rechazar.Post` keeps the reject service abstract, because it is imported from `$lib/server/inscripcionesArtisticas`, which is not part of this model. `Rechazar.PostEn` supplies it with `Store.CambiarEstado`.
