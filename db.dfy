/** The generic persistence adapter of `src/lib/db.ts`: the SQL text that
    `insert`, `update` and `getByConditions` assemble, the row `getById`
    picks, the begin/commit/rollback/release protocol of `transaction`, and
    the row `insertLog` writes. The database server itself is not modelled:
    a query's rows are inputs, and a step that may fail is given its outcome. */
module Db {
  import opened Common
  import opened Domain
  import Logging

  /** The entries of a JavaScript object, in insertion order
      (`Object.keys` / `Object.values`). */
  type Fields = seq<(string, Value)>

  function Keys(d: Fields): (ks: seq<string>)
    ensures |ks| == |d| && forall i :: 0 <= i < |d| ==> ks[i] == d[i].0
  {
    if d == [] then [] else [d[0].0] + Keys(d[1..])
  }

  function Values(d: Fields): (vs: seq<Value>)
    ensures |vs| == |d| && forall i :: 0 <= i < |d| ==> vs[i] == d[i].1
  {
    if d == [] then [] else [d[0].1] + Values(d[1..])
  }

  /** `parts.join(sep)`. */
  function Join(parts: seq<string>, sep: string): string
  {
    if parts == [] then ""
    else if |parts| == 1 then parts[0]
    else parts[0] + sep + Join(parts[1..], sep)
  }

  /** Number of occurrences of `c` in `s`. */
  function Count(c: char, s: string): nat
  {
    if s == [] then 0 else Count(c, s[..|s| - 1]) + (if s[|s| - 1] == c then 1 else 0)
  }

  lemma {:induction false} CountConcat(c: char, a: string, b: string)
    ensures Count(c, a + b) == Count(c, a) + Count(c, b)
  {
    if b != [] {
      assert (a + b)[..|a + b| - 1] == a + b[..|b| - 1];
      CountConcat(c, a, b[..|b| - 1]);
    } else {
      assert a + b == a;
    }
  }

  /** Text without `c` counts none of it. */
  lemma {:induction false} CountAbsent(c: char, s: string)
    requires c !in s
    ensures Count(c, s) == 0
  {
    if s != [] {
      assert forall x :: x in s[..|s| - 1] ==> x in s;
      CountAbsent(c, s[..|s| - 1]);
    }
  }

  /** Joining parts that each hold `c` exactly `k` times (k is 0 or 1) with
      a separator free of `c` holds `c` exactly `k` times per part. */
  lemma {:induction false} CountJoin(c: char, parts: seq<string>, sep: string, k: nat)
    requires k <= 1
    requires forall i :: 0 <= i < |parts| ==> Count(c, parts[i]) == k
    requires Count(c, sep) == 0
    ensures Count(c, Join(parts, sep)) == k * |parts|
  {
    if |parts| > 1 {
      var rest := parts[1..];
      assert forall i :: 0 <= i < |rest| ==> rest[i] == parts[i + 1];
      CountJoin(c, rest, sep, k);
      CountConcat(c, parts[0] + sep, Join(rest, sep));
      CountConcat(c, parts[0], sep);
      assert k * |parts| == k + k * |rest|;
    }
  }

  /** `Array(n).fill('?').join(', ')`. */
  function Placeholders(n: nat): string
  {
    Join(seq(n, _ => "?"), ", ")
  }

  /** `` `${key} = ?` `` for every key. */
  function Assignments(keys: seq<string>): (r: seq<string>)
    ensures |r| == |keys| && forall i :: 0 <= i < |keys| ==> r[i] == keys[i] + " = ?"
  {
    seq(|keys|, i requires 0 <= i < |keys| => keys[i] + " = ?")
  }

  /** A statement with its placeholder values, as handed to `pool.query`. */
  datatype Statement = Statement(sql: string, params: seq<Value>)

  /** The statement `insert(table, data)` runs. */
  function InsertStatement(table: string, data: Fields): Statement
  {
    Statement("INSERT INTO " + table + " (" + Join(Keys(data), ", ") + ") VALUES (" + Placeholders(|data|) + ")",
              Values(data))
  }

  /** The statement `update(table, id, data)` runs. */
  function UpdateStatement(table: string, id: int, data: Fields): Statement
  {
    Statement("UPDATE " + table + " SET " + Join(Assignments(Keys(data)), ", ") + " WHERE id = ?",
              Values(data) + [VInt(id)])
  }

  /** The statement `getByConditions(table, conditions)` runs. */
  function SelectStatement(table: string, conditions: Fields): Statement
  {
    Statement("SELECT * FROM " + table + " WHERE " + Join(Assignments(Keys(conditions)), " AND "),
              Values(conditions))
  }

  /** Table and column names that contain no `?` of their own. */
  ghost predicate NoMarks(table: string, d: Fields)
  {
    Count('?', table) == 0 && forall i :: 0 <= i < |d| ==> Count('?', d[i].0) == 0
  }

  lemma AssignmentCount(keys: seq<string>)
    requires forall i :: 0 <= i < |keys| ==> Count('?', keys[i]) == 0
    ensures forall i :: 0 <= i < |keys| ==> Count('?', Assignments(keys)[i]) == 1
  {
    forall i | 0 <= i < |keys| ensures Count('?', Assignments(keys)[i]) == 1 {
      CountConcat('?', keys[i], " = ?");
      CountAssignSuffix();
    }
  }

  lemma PlaceholdersCount(n: nat)
    ensures Count('?', Placeholders(n)) == n
  {
    var qs := seq(n, _ => "?");
    CountMark();
    CountComma();
    CountJoin('?', qs, ", ", 1);
  }

  lemma KeysCount(data: Fields)
    requires forall i :: 0 <= i < |data| ==> Count('?', data[i].0) == 0
    ensures Count('?', Join(Keys(data), ", ")) == 0
    ensures Count('?', Join(Assignments(Keys(data)), ", ")) == |data|
    ensures Count('?', Join(Assignments(Keys(data)), " AND ")) == |data|
  {
    var ks := Keys(data);
    CountComma();
    CountAnd();
    CountJoin('?', ks, ", ", 0);
    AssignmentCount(ks);
    CountJoin('?', Assignments(ks), ", ", 1);
    CountJoin('?', Assignments(ks), " AND ", 1);
  }

  // How many `?` each fixed fragment of the statements holds, one
  // fragment per lemma so that each proof stays small.
  lemma CountInsertInto() ensures Count('?', "INSERT INTO ") == 0 { CountAbsent('?', "INSERT INTO "); }
  lemma CountOpenParen() ensures Count('?', " (") == 0 { CountAbsent('?', " ("); }
  lemma CountValuesClause() ensures Count('?', ") VALUES (") == 0 { CountAbsent('?', ") VALUES ("); }
  lemma CountCloseParen() ensures Count('?', ")") == 0 { CountAbsent('?', ")"); }
  lemma CountUpdateKeyword() ensures Count('?', "UPDATE ") == 0 { CountAbsent('?', "UPDATE "); }
  lemma CountSetKeyword() ensures Count('?', " SET ") == 0 { CountAbsent('?', " SET "); }
  lemma CountWhereId() ensures Count('?', " WHERE id = ?") == 1 { assert " WHERE id = ?"[..12] == " WHERE id = "; CountAbsent('?', " WHERE id = "); }
  lemma CountSelectFrom() ensures Count('?', "SELECT * FROM ") == 0 { CountAbsent('?', "SELECT * FROM "); }
  lemma CountWhereKeyword() ensures Count('?', " WHERE ") == 0 { CountAbsent('?', " WHERE "); }
  lemma CountComma() ensures Count('?', ", ") == 0 { CountAbsent('?', ", "); }
  lemma CountAnd() ensures Count('?', " AND ") == 0 { CountAbsent('?', " AND "); }
  lemma CountAssignSuffix() ensures Count('?', " = ?") == 1 { assert " = ?"[..3] == " = "; CountAbsent('?', " = "); }
  lemma CountMark() ensures Count('?', "?") == 1 { assert "?"[..0] == ""; }
  lemma CountLogsTable() ensures Count('?', "logs_sistema") == 0 { CountAbsent('?', "logs_sistema"); }
  lemma CountNivelKey() ensures Count('?', "nivel") == 0 { CountAbsent('?', "nivel"); }
  lemma CountMensajeKey() ensures Count('?', "mensaje") == 0 { CountAbsent('?', "mensaje"); }
  lemma CountDetallesKey() ensures Count('?', "detalles") == 0 { CountAbsent('?', "detalles"); }
  lemma CountIpKey() ensures Count('?', "ip") == 0 { CountAbsent('?', "ip"); }

  /** Count over a concatenation of four pieces. */
  lemma CountConcat4(a: string, b: string, c: string, d: string)
    ensures Count('?', a + b + c + d) == Count('?', a) + Count('?', b) + Count('?', c) + Count('?', d)
  {
    CountConcat('?', a, b);
    CountConcat('?', a + b, c);
    CountConcat('?', a + b + c, d);
  }

  /** Count over a concatenation of seven pieces. */
  lemma CountConcat7(a: string, b: string, c: string, d: string, e: string, f: string, g: string)
    ensures Count('?', a + b + c + d + e + f + g) ==
            Count('?', a) + Count('?', b) + Count('?', c) + Count('?', d) + Count('?', e) + Count('?', f) + Count('?', g)
  {
    CountConcat4(a, b, c, d);
    CountConcat('?', a + b + c + d, e);
    CountConcat('?', a + b + c + d + e, f);
    CountConcat('?', a + b + c + d + e + f, g);
  }

  /** The INSERT text names the keys in order and has exactly one `?` per
      value; the values are the data's values in key order. */
  lemma InsertStatementFacts(table: string, data: Fields)
    requires NoMarks(table, data)
    ensures var st := InsertStatement(table, data);
      Count('?', st.sql) == |st.params| == |data| &&
      (forall i :: 0 <= i < |data| ==> st.params[i] == data[i].1)
  {
    KeysCount(data);
    PlaceholdersCount(|data|);
    CountInsertInto(); CountOpenParen(); CountValuesClause(); CountCloseParen();
    CountConcat7("INSERT INTO ", table, " (", Join(Keys(data), ", "), ") VALUES (", Placeholders(|data|), ")");
  }

  /** The UPDATE text has one `k = ?` per key followed by `WHERE id = ?`;
      its values are the data's values followed by the id. */
  lemma UpdateStatementFacts(table: string, id: int, data: Fields)
    requires NoMarks(table, data)
    ensures var st := UpdateStatement(table, id, data);
      Count('?', st.sql) == |st.params| == |data| + 1 &&
      st.params[|data|] == VInt(id) &&
      (forall i :: 0 <= i < |data| ==> st.params[i] == data[i].1) &&
      st.sql[|st.sql| - |" WHERE id = ?"|..] == " WHERE id = ?"
  {
    KeysCount(data);
    CountUpdateKeyword(); CountSetKeyword(); CountWhereId();
    var prefix := "UPDATE " + table + " SET " + Join(Assignments(Keys(data)), ", ");
    CountConcat4("UPDATE ", table, " SET ", Join(Assignments(Keys(data)), ", "));
    CountConcat('?', prefix, " WHERE id = ?");
    assert (prefix + " WHERE id = ?")[|prefix|..] == " WHERE id = ?";
  }

  /** The WHERE clause of `getByConditions` has one `k = ?` per key joined
      by `AND`; the values follow the key order. */
  lemma SelectStatementFacts(table: string, conditions: Fields)
    requires NoMarks(table, conditions)
    ensures var st := SelectStatement(table, conditions);
      Count('?', st.sql) == |st.params| == |conditions| &&
      (forall i :: 0 <= i < |conditions| ==> st.params[i] == conditions[i].1)
  {
    KeysCount(conditions);
    CountSelectFrom(); CountWhereKeyword();
    CountConcat4("SELECT * FROM ", table, " WHERE ", Join(Assignments(Keys(conditions)), " AND "));
  }

  /** `rows.length > 0 ? rows[0] : null`, the row `getById` returns. */
  function FirstRow<R>(rows: seq<R>): (r: Option<R>)
    ensures r.None? <==> rows == []
    ensures r.Some? ==> r.value == rows[0]
  {
    if rows == [] then None else Some(rows[0])
  }

  /** What happened to one awaited step: it resolved, or it threw. */
  datatype Outcome<+T> = Done(value: T) | Threw(error: string)

  /** The calls `transaction` makes on its pooled connection. `Work` marks
      the point where the caller's callback runs. */
  datatype ConnectionCall = BeginTransaction | Work | Commit | Rollback | Release

  /** The calls `transaction` makes on its connection and what it returns
      or throws, given how each awaited step turns out. A step after one
      that threw is not attempted, except for the rollback in the catch
      block and the release in the finally block. */
  function TransactionTrace<T>(begin: Outcome<()>, callback: Outcome<T>, commit: Outcome<()>, rollback: Outcome<()>): (r: (seq<ConnectionCall>, Outcome<T>))
    ensures |r.0| >= 3 && r.0[0] == BeginTransaction && r.0[|r.0| - 1] == Release
    ensures Release !in r.0[..|r.0| - 1]
    ensures Commit in r.0 <==> begin.Done? && callback.Done?
    ensures Work in r.0 <==> begin.Done?
    ensures r.1.Done? <==> begin.Done? && callback.Done? && commit.Done?
    ensures r.1.Done? ==> r.1 == Outcome.Done(callback.value) && Rollback !in r.0
    ensures r.1.Threw? ==> Rollback in r.0
    ensures r.1.Threw? && rollback.Threw? ==> r.1.error == rollback.error
    ensures r.1.Threw? && rollback.Done? ==>
              r.1.error == (if begin.Threw? then begin.error
                            else if callback.Threw? then callback.error
                            else commit.error)
  {
    if begin.Threw? then
      ([BeginTransaction, Rollback, Release], if rollback.Threw? then Threw(rollback.error) else Threw(begin.error))
    else if callback.Threw? then
      ([BeginTransaction, Work, Rollback, Release], if rollback.Threw? then Threw(rollback.error) else Threw(callback.error))
    else if commit.Threw? then
      ([BeginTransaction, Work, Commit, Rollback, Release], if rollback.Threw? then Threw(rollback.error) else Threw(commit.error))
    else
      ([BeginTransaction, Work, Commit, Release], Done(callback.value))
  }

  /** How the awaited steps of one `transaction` call on its connection
      turn out: acquiring it, `beginTransaction`, `commit` and, in the
      catch block, `rollback`. */
  datatype TransactionSteps = TransactionSteps(acquire: Outcome<()>, begin: Outcome<()>,
                                               commit: Outcome<()>, rollback: Outcome<()>)

  /** What `transaction` resolves to or throws, given its steps and the
      callback's outcome. */
  function TransactionResult<T>(steps: TransactionSteps, callback: Outcome<T>): (r: Outcome<T>)
    ensures r.Done? <==> steps.acquire.Done? && steps.begin.Done? && callback.Done? && steps.commit.Done?
    ensures r.Done? ==> r == callback
    ensures r.Threw? ==>
              r.error == (if steps.acquire.Threw? then steps.acquire.error
                          else if steps.rollback.Threw? then steps.rollback.error
                          else if steps.begin.Threw? then steps.begin.error
                          else if callback.Threw? then callback.error
                          else steps.commit.error)
  {
    if steps.acquire.Threw? then Threw(steps.acquire.error)
    else TransactionTrace(steps.begin, callback, steps.commit, steps.rollback).1
  }

  /** A pooled connection: the calls made on it, in order. */
  class Connection {
    var calls: seq<ConnectionCall>

    constructor ()
      ensures calls == []
    {
      calls := [];
    }

    method Call(c: ConnectionCall)
      modifies this
      ensures calls == old(calls) + [c]
    {
      calls := calls + [c];
    }
  }

  /** `transaction(callback)`: the try/catch/finally sequence on a freshly
      acquired connection. When acquiring the connection throws, nothing is
      called on it and that error propagates. */
  method Transaction<T>(conn: Connection, acquire: Outcome<()>, begin: Outcome<()>, callback: Outcome<T>,
                        commit: Outcome<()>, rollback: Outcome<()>) returns (r: Outcome<T>)
    modifies conn
    ensures acquire.Threw? ==> conn.calls == old(conn.calls) && r == Threw(acquire.error)
    ensures acquire.Done? ==>
              var (trace, result) := TransactionTrace(begin, callback, commit, rollback);
              conn.calls == old(conn.calls) + trace && r == result
    ensures r == TransactionResult(TransactionSteps(acquire, begin, commit, rollback), callback)
  {
    if acquire.Threw? {
      return Threw(acquire.error);
    }
    var failure: Option<string> := None;
    conn.Call(BeginTransaction);
    if begin.Threw? {
      failure := Some(begin.error);
    } else {
      conn.Call(Work);
      if callback.Threw? {
        failure := Some(callback.error);
      } else {
        conn.Call(Commit);
        if commit.Threw? {
          failure := Some(commit.error);
        }
      }
    }
    if failure.Some? {
      // catch block: roll back, then rethrow (or throw what the rollback threw)
      conn.Call(Rollback);
      r := if rollback.Threw? then Threw(rollback.error) else Threw(failure.value);
    } else {
      r := Done(callback.value);
    }
    // finally block
    conn.Call(Release);
  }

  /** `LogLevel` as the text stored in the `nivel` column. */
  function LevelName(l: Logging.LogLevel): string
  {
    match l
    case Info => "INFO"
    case Warning => "WARNING"
    case Error => "ERROR"
    case Debug => "DEBUG"
  }

  /** The object `insertLog` inserts into `logs_sistema`: `detalles`
      JSON-encoded when truthy, otherwise `null`; `ip` `null` when missing
      or empty. */
  function LogData(nivel: Logging.LogLevel, mensaje: string, detalles: Option<Json>, ip: Option<string>): (d: Fields)
    ensures Keys(d) == ["nivel", "mensaje", "detalles", "ip"]
    ensures d[0].1 == VStr(LevelName(nivel)) && d[1].1 == VStr(mensaje)
    ensures d[2].1 == (if detalles.Some? && TruthyJson(detalles.value) then VJsonText(detalles.value) else VNull)
    ensures d[3].1 == (if TruthyString(ip) then VStr(ip.value) else VNull)
  {
    [("nivel", VStr(LevelName(nivel))),
     ("mensaje", VStr(mensaje)),
     ("detalles", if detalles.Some? && TruthyJson(detalles.value) then VJsonText(detalles.value) else VNull),
     ("ip", if TruthyString(ip) then VStr(ip.value) else VNull)]
  }

  /** The log table after `insertLog`: one more row when the insert
      succeeds, unchanged when it fails. Either way nothing is thrown to
      the caller, which is why this returns a table and not an outcome. */
  function AfterInsertLog(logs: seq<Fields>, nivel: Logging.LogLevel, mensaje: string, detalles: Option<Json>,
                          ip: Option<string>, insertOk: bool): (r: seq<Fields>)
    ensures insertOk ==> r == logs + [LogData(nivel, mensaje, detalles, ip)]
    ensures !insertOk ==> r == logs
  {
    if insertOk then logs + [LogData(nivel, mensaje, detalles, ip)] else logs
  }

  /** The INSERT that `insertLog` issues binds exactly four values. */
  lemma InsertLogStatement(nivel: Logging.LogLevel, mensaje: string, detalles: Option<Json>, ip: Option<string>)
    ensures var st := InsertStatement("logs_sistema", LogData(nivel, mensaje, detalles, ip));
      Count('?', st.sql) == |st.params| == 4
  {
    var d := LogData(nivel, mensaje, detalles, ip);
    CountLogsTable(); CountNivelKey(); CountMensajeKey(); CountDetallesKey(); CountIpKey();
    assert d[0].0 == "nivel" && d[1].0 == "mensaje" && d[2].0 == "detalles" && d[3].0 == "ip";
    InsertStatementFacts("logs_sistema", d);
  }
}
