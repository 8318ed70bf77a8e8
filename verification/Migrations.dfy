/** The schema migrator of go/vedadb/migrator.go. */
module Migrations {
  // The database is a schema of any type plus the tracking table; scripts have an arbitrary partial meaning on
  // schemas; any statement may fail, without effect.

  import opened Wrappers

  datatype Migration = Migration(version: int, name: string, up: string, down: string)

  /** A row of the tracking table. */
  datatype Row = Row(version: int, name: string)

  /** `run` is the meaning of scripts; `fails(n)` says whether the n-th statement fails for reasons of its own. */
  datatype Env<!S> = Env(run: (string, S) -> Option<S>, fails: nat -> bool)

  /** `rows` lists the tracking table by its primary key; `scripts` is the history of executed scripts. */
  datatype Db<S> = Db(schema: S, hasTable: bool, rows: seq<Row>, statements: nat, scripts: seq<string>)

  datatype Error =
    | DatabaseError
    | EmptyScript(version: int)
    | ScriptFailed(version: int)
    | NotTracked(version: int)
    | NotRegistered(version: int)

  // ---------- statements ----------

  function Count<S>(db: Db<S>): Db<S> { db.(statements := db.statements + 1) }

  function ExecScript<S>(env: Env<S>, db: Db<S>, sql: string): (Db<S>, bool) {
    var result := env.run(sql, db.schema);
    if env.fails(db.statements) || result.None? then (Count(db), false)
    else (Count(db).(schema := result.value, scripts := db.scripts + [sql]), true)
  }

  function CreateTable<S>(env: Env<S>, db: Db<S>): (Db<S>, bool) {
    if env.fails(db.statements) then (Count(db), false) else (Count(db).(hasTable := true), true)
  }

  predicate Lists(rows: seq<Row>, version: int) {
    exists i :: 0 <= i < |rows| && rows[i].version == version
  }

  function InsertRow(rows: seq<Row>, row: Row): seq<Row> {
    if rows == [] || row.version < rows[0].version then [row] + rows else [rows[0]] + InsertRow(rows[1..], row)
  }

  function DeleteRow(rows: seq<Row>, version: int): seq<Row> {
    if rows == [] then []
    else if rows[0].version == version then DeleteRow(rows[1..], version)
    else [rows[0]] + DeleteRow(rows[1..], version)
  }

  /** The version is the primary key: inserting it twice fails. */
  function ExecInsert<S>(env: Env<S>, db: Db<S>, row: Row): (Db<S>, bool) {
    if env.fails(db.statements) || !db.hasTable || Lists(db.rows, row.version) then (Count(db), false)
    else (Count(db).(rows := InsertRow(db.rows, row)), true)
  }

  function ExecDelete<S>(env: Env<S>, db: Db<S>, version: int): (Db<S>, bool) {
    if env.fails(db.statements) || !db.hasTable then (Count(db), false)
    else (Count(db).(rows := DeleteRow(db.rows, version)), true)
  }

  /** `getApplied`: the rows in the order of their versions. */
  function GetApplied<S>(env: Env<S>, db: Db<S>): (Db<S>, Option<seq<Row>>) {
    if env.fails(db.statements) || !db.hasTable then (Count(db), None) else (Count(db), Some(db.rows))
  }

  // ---------- the migrator ----------

  /** The characters `strings.TrimSpace` removes. */
  predicate IsGoSpace(c: char) {
    var n := c as int;
    || 0x09 <= n <= 0x0D || n == 0x20 || n == 0x85 || n == 0xA0 || n == 0x1680 || 0x2000 <= n <= 0x200A
    || n == 0x2028 || n == 0x2029 || n == 0x202F || n == 0x205F || n == 0x3000
  }

  predicate IsBlank(s: string) {
    forall i :: 0 <= i < |s| ==> IsGoSpace(s[i])
  }

  function ApplyMigration<S>(env: Env<S>, db: Db<S>, m: Migration, up: bool): (Db<S>, Option<Error>) {
    var sql := if up then m.up else m.down;
    if IsBlank(sql) then (db, Some(EmptyScript(m.version)))
    else
      var (db1, ran) := ExecScript(env, db, sql);
      if !ran then (db1, Some(ScriptFailed(m.version)))
      else
        var (db2, tracked) := if up then ExecInsert(env, db1, Row(m.version, m.name)) else ExecDelete(env, db1, m.version);
        (db2, if tracked then None else Some(NotTracked(m.version)))
  }

  function InsertByVersion(ms: seq<Migration>, m: Migration): seq<Migration> {
    if ms == [] || m.version < ms[0].version then [m] + ms else [ms[0]] + InsertByVersion(ms[1..], m)
  }

  function SortByVersion(ms: seq<Migration>): seq<Migration> {
    if ms == [] then [] else InsertByVersion(SortByVersion(ms[..|ms| - 1]), ms[|ms| - 1])
  }

  function Unlisted(ms: seq<Migration>, rows: seq<Row>): seq<Migration> {
    if ms == [] then []
    else if Lists(rows, ms[0].version) then Unlisted(ms[1..], rows)
    else [ms[0]] + Unlisted(ms[1..], rows)
  }

  /** The registered migrations that are not recorded, in ascending order. */
  function Pending(ms: seq<Migration>, rows: seq<Row>): seq<Migration> {
    Unlisted(SortByVersion(ms), rows)
  }

  /** `Status`, as far as `Up` and `UpTo` use it. */
  function Status<S>(env: Env<S>, db: Db<S>, ms: seq<Migration>): (Db<S>, Option<seq<Migration>>) {
    var (db1, created) := CreateTable(env, db);
    if !created then (db1, None)
    else
      var (db2, applied) := GetApplied(env, db1);
      (db2, if applied.None? then None else Some(Pending(ms, applied.value)))
  }

  function UpEach<S>(env: Env<S>, db: Db<S>, pending: seq<Migration>): (Db<S>, Option<Error>)
    decreases |pending|
  {
    if pending == [] then (db, None)
    else
      var (db1, error) := ApplyMigration(env, db, pending[0], true);
      if error.Some? then (db1, error) else UpEach(env, db1, pending[1..])
  }

  /** The migrations before the first one beyond the target. */
  function UpToTarget(pending: seq<Migration>, target: int): seq<Migration> {
    if pending == [] || pending[0].version > target then [] else [pending[0]] + UpToTarget(pending[1..], target)
  }

  function Todo(pending: seq<Migration>, target: Option<int>): seq<Migration> {
    if target.Some? then UpToTarget(pending, target.value) else pending
  }

  /** `UpTo`, and `Up` when there is no target. */
  function Up<S>(env: Env<S>, db: Db<S>, ms: seq<Migration>, target: Option<int>): (Db<S>, Option<Error>) {
    var (db1, created) := CreateTable(env, db);
    if !created then (db1, Some(DatabaseError))
    else
      var (db2, pending) := Status(env, db1, ms);
      if pending.None? then (db2, Some(DatabaseError))
      else UpEach(env, db2, Todo(pending.value, target))
  }

  function Registered(ms: seq<Migration>, version: int): Option<Migration> {
    if ms == [] then None
    else if ms[0].version == version then Some(ms[0])
    else Registered(ms[1..], version)
  }

  /** Rolls back from the last applied version down to the target; unregistered versions are skipped. */
  function DownEach<S>(env: Env<S>, db: Db<S>, ms: seq<Migration>, applied: seq<Row>, target: int): (Db<S>, Option<Error>)
    decreases |applied|
  {
    if applied == [] || applied[|applied| - 1].version <= target then (db, None)
    else
      var n := |applied| - 1;
      var m := Registered(ms, applied[n].version);
      if m.None? then DownEach(env, db, ms, applied[..n], target)
      else
        var (db1, error) := ApplyMigration(env, db, m.value, false);
        if error.Some? then (db1, error) else DownEach(env, db1, ms, applied[..n], target)
  }

  function DownTo<S>(env: Env<S>, db: Db<S>, ms: seq<Migration>, target: int): (Db<S>, Option<Error>) {
    var (db1, created) := CreateTable(env, db);
    if !created then (db1, Some(DatabaseError))
    else
      var (db2, applied) := GetApplied(env, db1);
      if applied.None? then (db2, Some(DatabaseError)) else DownEach(env, db2, ms, applied.value, target)
  }

  function Down<S>(env: Env<S>, db: Db<S>, ms: seq<Migration>): (Db<S>, Option<Error>) {
    var (db1, created) := CreateTable(env, db);
    if !created then (db1, Some(DatabaseError))
    else
      var (db2, applied) := GetApplied(env, db1);
      if applied.None? then (db2, Some(DatabaseError))
      else if applied.value == [] then (db2, None)
      else
        var last := applied.value[|applied.value| - 1].version;
        var m := Registered(ms, last);
        if m.None? then (db2, Some(NotRegistered(last))) else ApplyMigration(env, db2, m.value, false)
  }

  // ---------- the class ----------

  /** The database behind the client. */
  class Database<S> {
    const env: Env<S>
    var db: Db<S>

    constructor (env: Env<S>, db: Db<S>)
      ensures this.env == env && this.db == db
    {
      this.env, this.db := env, db;
    }

    method Create() returns (ok: bool)
      modifies this
      ensures (db, ok) == CreateTable(env, old(db))
    {
      var (d, o) := CreateTable(env, db);
      db, ok := d, o;
    }

    method Script(sql: string) returns (ok: bool)
      modifies this
      ensures (db, ok) == ExecScript(env, old(db), sql)
    {
      var (d, o) := ExecScript(env, db, sql);
      db, ok := d, o;
    }

    method Insert(row: Row) returns (ok: bool)
      modifies this
      ensures (db, ok) == ExecInsert(env, old(db), row)
    {
      var (d, o) := ExecInsert(env, db, row);
      db, ok := d, o;
    }

    method Delete(version: int) returns (ok: bool)
      modifies this
      ensures (db, ok) == ExecDelete(env, old(db), version)
    {
      var (d, o) := ExecDelete(env, db, version);
      db, ok := d, o;
    }

    method Select() returns (rows: Option<seq<Row>>)
      modifies this
      ensures (db, rows) == GetApplied(env, old(db))
    {
      var (d, r) := GetApplied(env, db);
      db, rows := d, r;
    }
  }

  class Migrator<S> {
    const client: Database<S>
    var migrations: seq<Migration>

    constructor (client: Database<S>)
      ensures this.client == client && migrations == []
    {
      this.client := client;
      migrations := [];
    }

    method AddMigration(m: Migration)
      modifies this
      ensures migrations == old(migrations) + [m]
    {
      migrations := migrations + [m];
    }

    method Apply(m: Migration, up: bool) returns (error: Option<Error>)
      modifies client
      ensures (client.db, error) == ApplyMigration(client.env, old(client.db), m, up)
    {
      var sql := if up then m.up else m.down;
      if IsBlank(sql) {
        return Some(EmptyScript(m.version));
      }
      var ok := client.Script(sql);
      if !ok {
        return Some(ScriptFailed(m.version));
      }
      if up {
        ok := client.Insert(Row(m.version, m.name));
      } else {
        ok := client.Delete(m.version);
      }
      if !ok {
        return Some(NotTracked(m.version));
      }
      return None;
    }

    method GetStatus() returns (pending: Option<seq<Migration>>)
      modifies client
      ensures (client.db, pending) == Status(client.env, old(client.db), migrations)
    {
      var ok := client.Create();
      if !ok {
        return None;
      }
      var applied := client.Select();
      if applied.None? {
        return None;
      }
      var sorted := SortByVersion(migrations);
      var list: seq<Migration> := [];
      for i := 0 to |sorted|
        invariant list + Unlisted(sorted[i..], applied.value) == Pending(migrations, applied.value)
      {
        if !Lists(applied.value, sorted[i].version) {
          list := list + [sorted[i]];
        }
        assert sorted[i..][1..] == sorted[i + 1..];
        assert list + Unlisted(sorted[i + 1..], applied.value) == Pending(migrations, applied.value);
      }
      assert list + Unlisted([], applied.value) == list;
      return Some(list);
    }

    method MigrateUp(target: Option<int>) returns (error: Option<Error>)
      modifies client
      ensures (client.db, error) == Up(client.env, old(client.db), migrations, target)
    {
      var ok := client.Create();
      if !ok {
        return Some(DatabaseError);
      }
      var status := GetStatus();
      if status.None? {
        return Some(DatabaseError);
      }
      error := UpList(status.value, target);
    }

    method UpList(pending: seq<Migration>, target: Option<int>) returns (error: Option<Error>)
      modifies client
      ensures
        (client.db, error) == UpEach(client.env, old(client.db), Todo(pending, target))
    {
      ghost var todo := Todo(pending, target);
      var i := 0;
      while i < |pending|
        invariant 0 <= i <= |pending|
        invariant todo == Todo(pending[i..], target)
        invariant UpEach(client.env, client.db, todo) == UpEach(client.env, old(client.db), Todo(pending, target))
      {
        assert pending[i..][1..] == pending[i + 1..];
        if target.Some? && pending[i].version > target.value {
          return None;
        }
        error := Apply(pending[i], true);
        if error.Some? {
          return error;
        }
        todo := todo[1..];
        i := i + 1;
      }
      return None;
    }

    method MigrateDownTo(target: int) returns (error: Option<Error>)
      modifies client
      ensures (client.db, error) == DownTo(client.env, old(client.db), migrations, target)
    {
      var ok := client.Create();
      if !ok {
        return Some(DatabaseError);
      }
      var applied := client.Select();
      if applied.None? {
        return Some(DatabaseError);
      }
      error := DownList(applied.value, target);
    }

    method DownList(applied: seq<Row>, target: int) returns (error: Option<Error>)
      modifies client
      ensures (client.db, error) == DownEach(client.env, old(client.db), migrations, applied, target)
    {
      var i := |applied|;
      assert applied[..i] == applied;
      while i > 0
        invariant 0 <= i <= |applied|
        invariant DownEach(client.env, client.db, migrations, applied[..i], target)
          == DownEach(client.env, old(client.db), migrations, applied, target)
      {
        i := i - 1;
        if applied[i].version <= target {
          return None;
        }
        var m := Registered(migrations, applied[i].version);
        assert applied[..i + 1][..i] == applied[..i];
        if m.Some? {
          error := Apply(m.value, false);
          if error.Some? {
            return error;
          }
        }
      }
      return None;
    }

    method MigrateDown() returns (error: Option<Error>)
      modifies client
      ensures (client.db, error) == Down(client.env, old(client.db), migrations)
    {
      var ok := client.Create();
      if !ok {
        return Some(DatabaseError);
      }
      var applied := client.Select();
      if applied.None? {
        return Some(DatabaseError);
      }
      if |applied.value| == 0 {
        return None;
      }
      var last := applied.value[|applied.value| - 1];
      var m := Registered(migrations, last.version);
      if m.None? {
        return Some(NotRegistered(last.version));
      }
      error := Apply(m.value, false);
    }
  }

  // ---------- sorting and selecting ----------

  ghost predicate Ascending(ms: seq<Migration>) {
    forall i, j :: 0 <= i < j < |ms| ==> ms[i].version < ms[j].version
  }

  ghost predicate Distinct(ms: seq<Migration>) {
    forall i, j :: 0 <= i < j < |ms| ==> ms[i].version != ms[j].version
  }

  ghost predicate RowsAscending(rows: seq<Row>) {
    forall i, j :: 0 <= i < j < |rows| ==> rows[i].version < rows[j].version
  }

  lemma {:induction false} InsertHas(ms: seq<Migration>, m: Migration)
    ensures forall x :: x in InsertByVersion(ms, m) <==> x in ms || x == m
    ensures |InsertByVersion(ms, m)| == |ms| + 1
  {
    if ms != [] && m.version >= ms[0].version {
      InsertHas(ms[1..], m);
      assert ms == [ms[0]] + ms[1..];
    }
  }

  lemma {:induction false} InsertAscends(ms: seq<Migration>, m: Migration)
    requires Ascending(ms) && forall i :: 0 <= i < |ms| ==> ms[i].version != m.version
    ensures Ascending(InsertByVersion(ms, m))
  {
    if ms != [] && m.version >= ms[0].version {
      InsertAscends(ms[1..], m);
      InsertHas(ms[1..], m);
      var rest := InsertByVersion(ms[1..], m);
      forall i | 0 <= i < |rest| ensures ms[0].version < rest[i].version {
        assert rest[i] in rest;
      }
    }
  }

  lemma {:induction false} SortHas(ms: seq<Migration>)
    ensures forall x :: x in SortByVersion(ms) <==> x in ms
    ensures |SortByVersion(ms)| == |ms|
  {
    if ms != [] {
      var n := |ms| - 1;
      SortHas(ms[..n]);
      InsertHas(SortByVersion(ms[..n]), ms[n]);
      assert ms == ms[..n] + [ms[n]];
    }
  }

  lemma {:induction false} SortAscends(ms: seq<Migration>)
    requires Distinct(ms)
    ensures Ascending(SortByVersion(ms))
  {
    if ms != [] {
      var n := |ms| - 1;
      var before := SortByVersion(ms[..n]);
      SortAscends(ms[..n]);
      SortHas(ms[..n]);
      forall i | 0 <= i < |before| ensures before[i].version != ms[n].version {
        assert before[i] in before;
      }
      InsertAscends(before, ms[n]);
    }
  }

  lemma {:induction false} UnlistedIn(ms: seq<Migration>, rows: seq<Row>)
    ensures forall m :: m in Unlisted(ms, rows) ==> m in ms && !Lists(rows, m.version)
    ensures forall m :: m in ms && !Lists(rows, m.version) ==> m in Unlisted(ms, rows)
  {
    if ms != [] {
      UnlistedIn(ms[1..], rows);
      assert ms == [ms[0]] + ms[1..];
    }
  }

  lemma {:induction false} UnlistedAscends(ms: seq<Migration>, rows: seq<Row>)
    requires Ascending(ms)
    ensures Ascending(Unlisted(ms, rows))
  {
    if ms != [] {
      UnlistedAscends(ms[1..], rows);
      UnlistedIn(ms[1..], rows);
      var rest := Unlisted(ms[1..], rows);
      forall i | 0 <= i < |rest| ensures ms[0].version < rest[i].version {
        assert rest[i] in rest;
      }
    }
  }

  /** The pending migrations are the registered ones that are not recorded, each once, in ascending order. */
  lemma PendingExactly(ms: seq<Migration>, rows: seq<Row>)
    requires Distinct(ms)
    ensures Ascending(Pending(ms, rows))
    ensures forall m :: m in Pending(ms, rows) <==> m in ms && !Lists(rows, m.version)
  {
    SortAscends(ms);
    SortHas(ms);
    UnlistedIn(SortByVersion(ms), rows);
    UnlistedAscends(SortByVersion(ms), rows);
  }

  lemma {:induction false} UpToPrefix(pending: seq<Migration>, target: int)
    requires Ascending(pending)
    ensures UpToTarget(pending, target) <= pending
    ensures forall m :: m in UpToTarget(pending, target) <==> m in pending && m.version <= target
  {
    if pending != [] {
      assert pending == [pending[0]] + pending[1..];
      if pending[0].version <= target {
        UpToPrefix(pending[1..], target);
      } else {
        assert forall i :: 0 < i < |pending| ==> pending[0].version < pending[i].version;
      }
    }
  }

  // ---------- what a run of `Up` does ----------

  lemma {:induction false} InsertRowAscends(rows: seq<Row>, row: Row)
    requires RowsAscending(rows) && !Lists(rows, row.version)
    ensures RowsAscending(InsertRow(rows, row)) && |InsertRow(rows, row)| == |rows| + 1
    ensures forall r :: r in InsertRow(rows, row) <==> r in rows || r == row
  {
    if rows != [] {
      assert rows == [rows[0]] + rows[1..];
      if row.version >= rows[0].version {
        assert rows[0].version != row.version;
        ListedRest(rows, row.version);
        InsertRowAscends(rows[1..], row);
        var rest := InsertRow(rows[1..], row);
        forall i | 0 <= i < |rest| ensures rows[0].version < rest[i].version {
          assert rest[i] in rest;
        }
      }
    }
  }

  lemma ListedRest(rows: seq<Row>, version: int)
    requires rows != []
    ensures Lists(rows[1..], version) ==> Lists(rows, version)
  {
    if Lists(rows[1..], version) {
      var i :| 0 <= i < |rows[1..]| && rows[1..][i].version == version;
      assert rows[i + 1].version == version;
    }
  }

  lemma ListsIff(rows: seq<Row>, version: int)
    ensures Lists(rows, version) <==> exists r :: r in rows && r.version == version
  {
    if Lists(rows, version) {
      var i :| 0 <= i < |rows| && rows[i].version == version;
      assert rows[i] in rows;
    }
  }

  /** The meaning of a list of scripts, run one after the other. */
  function RunScripts<S>(env: Env<S>, schema: S, scripts: seq<string>): Option<S> {
    if scripts == [] then Some(schema)
    else match RunScripts(env, schema, scripts[..|scripts| - 1])
      case None => None
      case Some(s) => env.run(scripts[|scripts| - 1], s)
  }

  function UpScripts(ms: seq<Migration>): seq<string> {
    seq(|ms|, i requires 0 <= i < |ms| => ms[i].up)
  }

  function RowsOf(ms: seq<Migration>): seq<Row> {
    seq(|ms|, i requires 0 <= i < |ms| => Row(ms[i].version, ms[i].name))
  }

  /** The rows after the first `k` pending migrations were recorded. */
  ghost predicate Records(rows: seq<Row>, after: seq<Row>, pending: seq<Migration>, k: nat) {
    k <= |pending| && forall r :: r in after <==> r in rows || r in RowsOf(pending[..k])
  }

  /** The scripts of the first `k` pending migrations, and one more if its record could not be written. */
  function Ran(pending: seq<Migration>, k: nat, more: bool): seq<string>
    requires k <= |pending| && (more ==> k < |pending|)
  {
    UpScripts(pending[..k]) + (if more then [pending[k].up] else [])
  }

  /** The database after the first `k` pending migrations, plus the script of the next one if `more`. */
  ghost predicate Advanced<S>(env: Env<S>, before: Db<S>, after: Db<S>, pending: seq<Migration>, k: nat, more: bool) {
    && k <= |pending| && (more ==> k < |pending|)
    && after.hasTable
    && RowsAscending(after.rows)
    && Records(before.rows, after.rows, pending, k)
    && after.scripts == before.scripts + Ran(pending, k, more)
    && RunScripts(env, before.schema, Ran(pending, k, more)) == Some(after.schema)
  }

  ghost predicate FailedAt(error: Option<Error>, version: int) {
    error == Some(EmptyScript(version)) || error == Some(ScriptFailed(version)) || error == Some(NotTracked(version))
  }

  ghost predicate Untracked(error: Option<Error>) { error.Some? && error.value.NotTracked? }

  ghost predicate Outcome<S>(env: Env<S>, before: Db<S>, result: (Db<S>, Option<Error>), todo: seq<Migration>, k: nat) {
    && Advanced(env, before, result.0, todo, k, Untracked(result.1))
    && (if k == |todo| then result.1.None? else FailedAt(result.1, todo[k].version))
  }

  /** Up executes the pending scripts in order and records each; on an error at migration k exactly the
      first k are recorded, and its own script has run only if it could not be recorded. */
  lemma {:induction false} UpEachAdvances<S>(env: Env<S>, db: Db<S>, pending: seq<Migration>) returns (k: nat)
    requires Ascending(pending) && RowsAscending(db.rows) && db.hasTable
    requires forall m :: m in pending ==> !Lists(db.rows, m.version)
    ensures Outcome(env, db, UpEach(env, db, pending), pending, k)
    decreases |pending|
  {
    if pending == [] {
      k := 0;
      assert Ran(pending, 0, false) == [];
    } else if ApplyMigration(env, db, pending[0], true).1.Some? {
      k := 0;
      FirstFails(env, db, pending);
    } else {
      var m := pending[0];
      var db1 := ApplyMigration(env, db, m, true).0;
      InsertRowAscends(db.rows, Row(m.version, m.name));
      RestNotListed(db.rows, Row(m.version, m.name), pending);
      var j := UpEachAdvances(env, db1, pending[1..]);
      k := j + 1;
      var result := UpEach(env, db1, pending[1..]);
      assert UpEach(env, db, pending) == result;
      Prepend(env, db, db1, result.0, pending, j, Untracked(result.1));
    }
  }

  lemma FirstFails<S>(env: Env<S>, db: Db<S>, pending: seq<Migration>)
    requires pending != [] && RowsAscending(db.rows) && db.hasTable
    requires ApplyMigration(env, db, pending[0], true).1.Some?
    ensures Outcome(env, db, ApplyMigration(env, db, pending[0], true), pending, 0)
  {
    var (after, error) := ApplyMigration(env, db, pending[0], true);
    var ran := Ran(pending, 0, Untracked(error));
    if Untracked(error) {
      assert ran == [pending[0].up] && ran[..0] == [];
      assert RunScripts(env, db.schema, ran[..0]) == Some(db.schema);
    } else {
      assert ran == [];
    }
  }

  lemma RestNotListed(rows: seq<Row>, row: Row, pending: seq<Migration>)
    requires Ascending(pending) && pending != [] && row.version == pending[0].version
    requires RowsAscending(rows) && !Lists(rows, row.version)
    requires forall m :: m in pending ==> !Lists(rows, m.version)
    ensures forall m :: m in pending[1..] ==> !Lists(InsertRow(rows, row), m.version)
  {
    InsertRowAscends(rows, row);
    forall m | m in pending[1..] ensures !Lists(InsertRow(rows, row), m.version) {
      assert m in pending;
      ListsIff(rows, m.version);
      ListsIff(InsertRow(rows, row), m.version);
    }
  }

  lemma {:induction false} RunScriptsCons<S>(env: Env<S>, schema: S, sql: string, scripts: seq<string>)
    requires env.run(sql, schema).Some?
    ensures RunScripts(env, schema, [sql] + scripts) == RunScripts(env, env.run(sql, schema).value, scripts)
  {
    if scripts == [] {
      assert [sql] + scripts == [sql] && [sql][..0] == [];
      assert RunScripts(env, schema, [sql][..0]) == Some(schema);
    } else {
      var n := |scripts| - 1;
      assert ([sql] + scripts)[..n + 1] == [sql] + scripts[..n];
      RunScriptsCons(env, schema, sql, scripts[..n]);
    }
  }

  lemma RanCons(pending: seq<Migration>, j: nat, more: bool)
    requires pending != [] && j <= |pending| - 1 && (more ==> j < |pending| - 1)
    ensures Ran(pending, j + 1, more) == [pending[0].up] + Ran(pending[1..], j, more)
  {
    assert pending[..j + 1] == [pending[0]] + pending[1..][..j];
    assert UpScripts(pending[..j + 1]) == [pending[0].up] + UpScripts(pending[1..][..j]);
  }

  lemma RecordsCons(rows: seq<Row>, rows1: seq<Row>, after: seq<Row>, pending: seq<Migration>, j: nat)
    requires pending != [] && Records(rows1, after, pending[1..], j)
    requires forall r :: r in rows1 <==> r in rows || r == Row(pending[0].version, pending[0].name)
    ensures Records(rows, after, pending, j + 1)
  {
    assert pending[..j + 1] == [pending[0]] + pending[1..][..j];
    assert RowsOf(pending[..j + 1]) == [Row(pending[0].version, pending[0].name)] + RowsOf(pending[1..][..j]);
  }

  lemma Grow<T>(all: seq<T>, x: T, rest: seq<T>)
    ensures (all + [x]) + rest == all + ([x] + rest)
  {}

  lemma Prepend<S>(env: Env<S>, db: Db<S>, db1: Db<S>, after: Db<S>, pending: seq<Migration>, j: nat, more: bool)
    requires pending != [] && ApplyMigration(env, db, pending[0], true) == (db1, None)
    requires RowsAscending(db.rows) && !Lists(db.rows, pending[0].version)
    requires Advanced(env, db1, after, pending[1..], j, more)
    ensures Advanced(env, db, after, pending, j + 1, more)
  {
    var m := pending[0];
    InsertRowAscends(db.rows, Row(m.version, m.name));
    RecordsCons(db.rows, db1.rows, after.rows, pending, j);
    RanCons(pending, j, more);
    Grow(db.scripts, m.up, Ran(pending[1..], j, more));
    RunScriptsCons(env, db.schema, m.up, Ran(pending[1..], j, more));
  }

  lemma SameStart<S>(env: Env<S>, a: Db<S>, b: Db<S>, result: (Db<S>, Option<Error>), todo: seq<Migration>, k: nat)
    requires a.rows == b.rows && a.schema == b.schema && a.scripts == b.scripts
    requires Outcome(env, b, result, todo, k)
    ensures Outcome(env, a, result, todo, k)
  {}

  /** What `Up` is to run is in ascending order and not recorded. */
  lemma TodoReady(ms: seq<Migration>, rows: seq<Row>, target: Option<int>)
    requires Distinct(ms) && RowsAscending(rows)
    ensures
      var todo := Todo(Pending(ms, rows), target);
      Ascending(todo) && forall m :: m in todo ==> !Lists(rows, m.version)
  {
    PendingExactly(ms, rows);
    if target.Some? {
      UpToPrefix(Pending(ms, rows), target.value);
    }
  }

  /** Without an error, `Up` ran exactly the pending scripts, each once, in ascending order of version,
      and recorded them; with an error at version v, exactly the pending versions below v are newly
      recorded and at most v's own script ran unrecorded. The schema is the effect of those scripts. */
  lemma UpExactly<S>(env: Env<S>, db: Db<S>, ms: seq<Migration>, target: Option<int>) returns (k: nat)
    requires Distinct(ms) && RowsAscending(db.rows)
    ensures
      var todo := Todo(Pending(ms, db.rows), target);
      var (after, error) := Up(env, db, ms, target);
      if error == Some(DatabaseError) then after.rows == db.rows && after.scripts == db.scripts && after.schema == db.schema
      else Outcome(env, db, (after, error), todo, k)
  {
    var todo := Todo(Pending(ms, db.rows), target);
    TodoReady(ms, db.rows, target);
    k := 0;
    var (db1, created) := CreateTable(env, db);
    var (db2, status) := Status(env, db1, ms);
    if created && status.Some? {
      k := UpEachAdvances(env, db2, todo);
      SameStart(env, db, db2, UpEach(env, db2, todo), todo, k);
    }
  }

  lemma NothingPending(ms: seq<Migration>, rows: seq<Row>, after: seq<Row>)
    requires Distinct(ms) && Records(rows, after, Pending(ms, rows), |Pending(ms, rows)|)
    ensures Pending(ms, after) == []
  {
    var pending := Pending(ms, rows);
    PendingExactly(ms, rows);
    PendingExactly(ms, after);
    assert pending[..|pending|] == pending;
    if Pending(ms, after) != [] {
      var m := Pending(ms, after)[0];
      assert m in Pending(ms, after);
      Recorded(rows, after, pending, |pending|, m);
    }
  }

  /** A second `Up`, even with other failures, runs no script. */
  lemma SecondUpRunsNothing<S>(env: Env<S>, again: Env<S>, db: Db<S>, ms: seq<Migration>)
    requires Distinct(ms) && RowsAscending(db.rows) && Up(env, db, ms, None).1.None?
    ensures
      var after := Up(env, db, ms, None).0;
      && Pending(ms, after.rows) == []
      && Up(again, after, ms, None).0.scripts == after.scripts && Up(again, after, ms, None).0.rows == after.rows
  {
    var after := Up(env, db, ms, None).0;
    var k := UpExactly(env, db, ms, None);
    NothingPending(ms, db.rows, after.rows);
    UpOfNothing(again, after, ms);
  }

  lemma UpOfNothing<S>(env: Env<S>, db: Db<S>, ms: seq<Migration>)
    requires Pending(ms, db.rows) == []
    ensures Up(env, db, ms, None).0.scripts == db.scripts && Up(env, db, ms, None).0.rows == db.rows
  {}

  /** A migration that was recorded before, or is among the first `k` pending ones, is recorded after. */
  lemma Recorded(rows: seq<Row>, after: seq<Row>, pending: seq<Migration>, k: nat, m: Migration)
    requires Records(rows, after, pending, k)
    requires Lists(rows, m.version) || m in pending[..k]
    ensures Lists(after, m.version)
  {
    ListsIff(rows, m.version);
    ListsIff(after, m.version);
    if m in pending[..k] {
      var i :| 0 <= i < k && pending[..k][i] == m;
      assert RowsOf(pending[..k])[i].version == m.version;
      assert RowsOf(pending[..k])[i] in RowsOf(pending[..k]);
    }
  }

  lemma FirstPending(ms: seq<Migration>, rows: seq<Row>, after: seq<Row>, k: nat)
    requires Distinct(ms) && Records(rows, after, Pending(ms, rows), k) && k < |Pending(ms, rows)|
    ensures Pending(ms, after) != [] && Pending(ms, after)[0] == Pending(ms, rows)[k]
  {
    var pending, next := Pending(ms, rows), Pending(ms, after);
    PendingExactly(ms, rows);
    PendingExactly(ms, after);
    var m := pending[k];
    assert m in pending;
    StillUnlisted(rows, after, pending, k);
    assert m in next && next[0] in next;
    var i :| 0 <= i < |next| && next[i] == m;
    if i > 0 {
      if !Lists(rows, next[0].version) {
        assert next[0] in pending;
        var j :| 0 <= j < |pending| && pending[j] == next[0];
        assert j < k && pending[..k][j] == next[0];
      }
      Recorded(rows, after, pending, k, next[0]);
    }
  }

  /** When a script ran but could not be recorded, it is the first one pending: the next `Up` runs it again. */
  lemma UntrackedRunsAgain<S>(env: Env<S>, db: Db<S>, ms: seq<Migration>, target: Option<int>)
    requires Distinct(ms) && RowsAscending(db.rows) && Untracked(Up(env, db, ms, target).1)
    ensures
      var (after, error) := Up(env, db, ms, target);
      var next := Pending(ms, after.rows);
      && next != [] && next[0].version == error.value.version
      && after.scripts != [] && after.scripts[|after.scripts| - 1] == next[0].up
  {
    var k := UpExactly(env, db, ms, target);
    var pending, after := Pending(ms, db.rows), Up(env, db, ms, target).0;
    PendingExactly(ms, db.rows);
    if target.Some? {
      UpToPrefix(pending, target.value);
    }
    var todo := Todo(pending, target);
    assert todo[..k] == pending[..k] && todo[k] == pending[k];
    FirstPending(ms, db.rows, after.rows, k);
  }

  lemma StillUnlisted(rows: seq<Row>, after: seq<Row>, pending: seq<Migration>, k: nat)
    requires k < |pending| && Ascending(pending) && !Lists(rows, pending[k].version)
    requires Records(rows, after, pending, k)
    ensures !Lists(after, pending[k].version)
  {
    ListsIff(rows, pending[k].version);
    ListsIff(after, pending[k].version);
    forall r | r in RowsOf(pending[..k]) ensures r.version != pending[k].version {
      var i :| 0 <= i < k && RowsOf(pending[..k])[i] == r;
      assert pending[i].version < pending[k].version;
    }
  }

  // ---------- up and down again ----------

  /** Statements do not fail by themselves. */
  ghost predicate Reliable<S>(env: Env<S>) { forall n: nat :: !env.fails(n) }

  ghost predicate Inverse<S(!new)>(env: Env<S>, m: Migration) {
    && !IsBlank(m.down)
    && forall s :: env.run(m.up, s).Some? ==> env.run(m.down, env.run(m.up, s).value) == Some(s)
  }

  lemma {:induction false} RegisteredFinds(ms: seq<Migration>, m: Migration)
    requires Distinct(ms) && m in ms
    ensures Registered(ms, m.version) == Some(m)
  {
    assert ms == [ms[0]] + ms[1..];
    if ms[0] != m {
      var i :| 0 <= i < |ms[1..]| && ms[1..][i] == m;
      assert ms[0].version != ms[i + 1].version;
      RegisteredFinds(ms[1..], m);
    }
  }

  lemma {:induction false} InsertLast(rows: seq<Row>, row: Row)
    requires forall i :: 0 <= i < |rows| ==> rows[i].version < row.version
    ensures InsertRow(rows, row) == rows + [row] && DeleteRow(rows + [row], row.version) == rows
    ensures !Lists(rows, row.version)
  {
    if rows == [] {
      assert [row][1..] == [];
      assert rows + [row] == [row];
    } else {
      InsertLast(rows[1..], row);
      assert (rows + [row])[1..] == rows[1..] + [row];
    }
  }

  /** Rolling back what a run of `UpEach` recorded leads back to where it started, with nothing rolled back
      beyond that. */
  lemma {:induction false} UndoEach<S(!new)>(env: Env<S>, db: Db<S>, ms: seq<Migration>, todo: seq<Migration>, a: int, d: Db<S>)
      returns (back: Db<S>)
    requires Reliable(env) && Distinct(ms) && Ascending(todo) && db.hasTable && d.hasTable
    requires forall m :: m in todo ==> m in ms && m.version > a && Inverse(env, m)
    requires forall i :: 0 <= i < |db.rows| ==> todo != [] ==> db.rows[i].version < todo[0].version
    requires var after := UpEach(env, db, todo).0; d.schema == after.schema && d.rows == after.rows
    ensures DownEach(env, d, ms, UpEach(env, db, todo).0.rows, a) == DownEach(env, back, ms, db.rows, a)
    ensures back.schema == db.schema && back.rows == db.rows && back.hasTable
    decreases |todo|
  {
    if todo == [] || ApplyMigration(env, db, todo[0], true).1.Some? {
      if todo != [] {
        ReliableFailure(env, db, todo[0]);
      }
      back := d;
    } else {
      var m := todo[0];
      var up := ApplyMigration(env, db, m, true).0;
      assert m in todo;
      RowsBelow(env, db, m, todo);
      assert UpEach(env, db, todo) == UpEach(env, up, todo[1..]);
      var mid := UndoEach(env, up, ms, todo[1..], a, d);
      back := UndoOne(env, db, up, ms, m, a, mid);
    }
  }

  lemma RowsBelow<S>(env: Env<S>, db: Db<S>, m: Migration, todo: seq<Migration>)
    requires todo != [] && m == todo[0] && Ascending(todo)
    requires forall i :: 0 <= i < |db.rows| ==> db.rows[i].version < m.version
    requires ApplyMigration(env, db, m, true).1.None?
    ensures
      var up := ApplyMigration(env, db, m, true).0;
      && up.hasTable
      && forall i :: 0 <= i < |up.rows| ==> todo[1..] != [] ==> up.rows[i].version < todo[1..][0].version
  {
    InsertLast(db.rows, Row(m.version, m.name));
  }

  lemma ReliableFailure<S>(env: Env<S>, db: Db<S>, m: Migration)
    requires Reliable(env) && db.hasTable && ApplyMigration(env, db, m, true).1.Some?
    requires forall i :: 0 <= i < |db.rows| ==> db.rows[i].version < m.version
    ensures ApplyMigration(env, db, m, true).0.rows == db.rows && ApplyMigration(env, db, m, true).0.schema == db.schema
  {
    InsertLast(db.rows, Row(m.version, m.name));
  }

  lemma UndoOne<S(!new)>(env: Env<S>, db: Db<S>, up: Db<S>, ms: seq<Migration>, m: Migration, a: int, mid: Db<S>) returns (back: Db<S>)
    requires Reliable(env) && Distinct(ms) && m in ms && m.version > a && Inverse(env, m) && mid.hasTable
    requires forall i :: 0 <= i < |db.rows| ==> db.rows[i].version < m.version
    requires ApplyMigration(env, db, m, true) == (up, None)
    requires mid.schema == up.schema && mid.rows == up.rows
    ensures DownEach(env, mid, ms, up.rows, a) == DownEach(env, back, ms, db.rows, a)
    ensures back.schema == db.schema && back.rows == db.rows && back.hasTable
  {
    var row := Row(m.version, m.name);
    InsertLast(db.rows, row);
    RegisteredFinds(ms, m);
    assert up.rows == db.rows + [row] && up.rows[..|db.rows|] == db.rows;
    assert env.run(m.down, mid.schema) == Some(db.schema);
    back := ApplyMigration(env, mid, m, false).0;
  }

  /** If nothing fails by itself, and the migrations to be applied have inverse scripts and lie above the applied
      ones, then migrating up to any version and back down restores the schema and the tracking table --
      even if a script of the way up was refused. Nothing is asked of migrations that the run does not apply. */
  lemma UpThenDownRestores<S(!new)>(env: Env<S>, db: Db<S>, ms: seq<Migration>, a: int, b: int)
    requires Reliable(env) && Distinct(ms) && RowsAscending(db.rows)
    requires forall i :: 0 <= i < |db.rows| ==> db.rows[i].version <= a
    requires forall m :: m in UpToTarget(Pending(ms, db.rows), b) ==> m.version > a && Inverse(env, m)
    ensures
      var (down, error) := DownTo(env, Up(env, db, ms, Some(b)).0, ms, a);
      error.None? && down.schema == db.schema && down.rows == db.rows
  {
    var pending := Pending(ms, db.rows);
    PendingExactly(ms, db.rows);
    UpToPrefix(pending, b);
    var todo := UpToTarget(pending, b);
    var start := GetApplied(env, CreateTable(env, CreateTable(env, db).0).0).0;
    assert Up(env, db, ms, Some(b)) == UpEach(env, start, todo);
    var up := UpEach(env, start, todo).0;
    var d := GetApplied(env, CreateTable(env, up).0).0;
    if todo != [] {
      assert todo[0] in todo;
    }
    var back := UndoEach(env, start, ms, todo, a, d);
  }
}
