/** How far the migrator gets. */
module MigrationOutcomes {
  // What `Up`, `UpTo`, `Down` and `DownTo` of go/vedadb/migrator.go leave behind, and with which error, said of the
  // scripts, the statements that fail and the rows of the tracking table.

  import opened Wrappers
  import opened Migrations

  function Script(m: Migration, up: bool): string { if up then m.up else m.down }

  predicate Records(rows: seq<Row>, version: int) { exists r <- rows :: r.version == version }

  /** The rows after some migrations were recorded, or their records removed. */
  ghost predicate RowsAfter(before: seq<Row>, after: seq<Row>, ms: seq<Migration>, up: bool) {
    && RowsAscending(after)
    && forall r :: r in after <==>
         if up then r in before || exists m <- ms :: r == Row(m.version, m.name)
         else r in before && forall m <- ms :: r.version != m.version
  }

  // ---------- one migration ----------

  lemma {:induction false} DeleteRowIs(rows: seq<Row>, version: int)
    requires RowsAscending(rows)
    ensures RowsAscending(DeleteRow(rows, version))
    ensures forall r :: r in DeleteRow(rows, version) <==> r in rows && r.version != version
  {
    if rows != [] {
      DeleteRowIs(rows[1..], version);
      var first, rest := rows[0], DeleteRow(rows[1..], version);
      assert rows == [first] + rows[1..];
      assert DeleteRow(rows, version) == if first.version == version then rest else [first] + rest;
      hide DeleteRow;
      forall i | 0 <= i < |rest| ensures first.version < rest[i].version {
        assert rest[i] in rows[1..];
      }
    }
  }

  lemma RecordsIsLists(rows: seq<Row>, version: int)
    ensures Records(rows, version) <==> Lists(rows, version)
  {
    ListsIff(rows, version);
  }

  /** The characters that make a script blank are those with the Unicode property White_Space. */
  lemma BlankCharacters(c: char)
    ensures
      IsGoSpace(c) <==>
        c as int in {
          0x09, 0x0A, 0x0B, 0x0C, 0x0D, 0x20, 0x85, 0xA0, 0x1680,
          0x2000, 0x2001, 0x2002, 0x2003, 0x2004, 0x2005, 0x2006, 0x2007, 0x2008, 0x2009, 0x200A,
          0x2028, 0x2029, 0x202F, 0x205F, 0x3000}
  {}

  lemma BlankIs(sql: string)
    ensures IsBlank(sql) <==> forall c <- sql :: IsGoSpace(c)
  {
    hide IsGoSpace;
  }

  lemma RowsAre(rows: seq<Row>, m: Migration, up: bool)
    requires RowsAscending(rows) && (up ==> !Records(rows, m.version))
    ensures RowsAfter(rows, if up then InsertRow(rows, Row(m.version, m.name)) else DeleteRow(rows, m.version), [m], up)
  {
    assert forall x :: x in [m] <==> x == m;
    if up {
      RecordsIsLists(rows, m.version);
      InsertRowAscends(rows, Row(m.version, m.name));
    } else {
      DeleteRowIs(rows, m.version);
    }
    hide InsertRow, DeleteRow, Records, Lists;
  }

  /** Of a migration, first its script is run and then its row is written or removed. A blank script is refused before
      anything happens, a script that fails leaves the schema and the table as they are, and a script whose row cannot
      be written has run all the same. */
  lemma ApplyIs<S>(env: Env<S>, db: Db<S>, m: Migration, up: bool)
    requires RowsAscending(db.rows)
    ensures
      var sql := if up then m.up else m.down;
      var (after, error) := ApplyMigration(env, db, m, up);
      if forall c <- sql :: IsGoSpace(c) then error == Some(EmptyScript(m.version)) && after == db
      else if env.fails(db.statements) || env.run(sql, db.schema).None? then
        error == Some(ScriptFailed(m.version)) && after == db.(statements := db.statements + 1)
      else
        && after.schema == env.run(sql, db.schema).value && after.scripts == db.scripts + [sql]
        && after.statements == db.statements + 2 && after.hasTable == db.hasTable
        && if env.fails(db.statements + 1) || !db.hasTable || (up && Records(db.rows, m.version))
           then error == Some(NotTracked(m.version)) && after.rows == db.rows
           else error == None && RowsAfter(db.rows, after.rows, [m], up)
  {
    RecordsIsLists(db.rows, m.version);
    if !(up && Records(db.rows, m.version)) {
      RowsAre(db.rows, m, up);
    }
    BlankIs(if up then m.up else m.down);
    hide RowsAfter, InsertRow, DeleteRow, Records, Lists, IsBlank, IsGoSpace;
  }

  // ---------- a list of migrations ----------

  /** One migration after the other, up to the first error. */
  function ApplyEach<S>(env: Env<S>, db: Db<S>, ms: seq<Migration>, up: bool): (Db<S>, Option<Error>)
    decreases |ms|
  {
    if ms == [] then (db, None)
    else
      var (db1, error) := ApplyMigration(env, db, ms[0], up);
      if error.Some? then (db1, error) else ApplyEach(env, db1, ms[1..], up)
  }

  function Scripts(ms: seq<Migration>, up: bool): seq<string> {
    seq(|ms|, i requires 0 <= i < |ms| => Script(ms[i], up))
  }

  predicate NoneBlank(ms: seq<Migration>, up: bool) { forall m <- ms :: exists c <- Script(m, up) :: !IsGoSpace(c) }

  predicate NoneFails<S>(env: Env<S>, first: nat, n: nat) { forall i :: first <= i < first + n ==> !env.fails(i) }

  /** These migrations go through, each with two statements. */
  ghost predicate GoThrough<S>(env: Env<S>, db: Db<S>, ms: seq<Migration>, up: bool) {
    && NoneBlank(ms, up)
    && NoneFails(env, db.statements, 2 * |ms|)
    && RunScripts(env, db.schema, Scripts(ms, up)).Some?
  }

  /** The first `k` migrations went through and, if there are more, the next one did not, for the reason given by the
      error. */
  ghost predicate Stops<S>(env: Env<S>, db: Db<S>, result: (Db<S>, Option<Error>), ms: seq<Migration>, up: bool, k: nat)
  {
    var (after, error) := result;
    && k <= |ms| && GoThrough(env, db, ms[..k], up)
    && RowsAfter(db.rows, after.rows, ms[..k], up)
    && var schema := RunScripts(env, db.schema, Scripts(ms[..k], up)).value;
       var at := db.statements + 2 * k;
       var same := after.schema == schema && after.scripts == db.scripts + Scripts(ms[..k], up);
       if k == |ms| then error == None && same
       else
         var m, sql := ms[k], Script(ms[k], up);
         if forall c <- sql :: IsGoSpace(c) then error == Some(EmptyScript(m.version)) && same
         else if env.fails(at) || env.run(sql, schema).None? then error == Some(ScriptFailed(m.version)) && same
         else
           && env.fails(at + 1) && error == Some(NotTracked(m.version))
           && after.schema == env.run(sql, schema).value
           && after.scripts == db.scripts + Scripts(ms[..k], up) + [sql]
  }

  /** What is to be recorded is not recorded yet. */
  ghost predicate Ready(rows: seq<Row>, ms: seq<Migration>, up: bool) {
    RowsAscending(rows) && (up ==> Ascending(ms) && forall m <- ms :: !Records(rows, m.version))
  }

  lemma ReadyRest<S>(env: Env<S>, db: Db<S>, ms: seq<Migration>, up: bool)
    requires ms != [] && Ready(db.rows, ms, up) && ApplyMigration(env, db, ms[0], up).1.None?
    ensures Ready(ApplyMigration(env, db, ms[0], up).0.rows, ms[1..], up)
  {
    var m, after := ms[0], ApplyMigration(env, db, ms[0], up).0;
    ApplyIs(env, db, m, up);
    hide ApplyMigration;
    if up {
      forall x | x in ms[1..] ensures !Records(after.rows, x.version) {
        var i :| 0 <= i < |ms[1..]| && ms[1..][i] == x;
        assert ms[0].version < ms[i + 1].version;
        assert ms[i + 1] in ms;
        assert forall r :: r in after.rows ==> r in db.rows || r == Row(m.version, m.name);
      }
    }
  }

  lemma RowsAfterCons(rows: seq<Row>, middle: seq<Row>, after: seq<Row>, ms: seq<Migration>, up: bool)
    requires ms != [] && RowsAfter(rows, middle, [ms[0]], up) && RowsAfter(middle, after, ms[1..], up)
    ensures RowsAfter(rows, after, ms, up)
  {
    assert ms == [ms[0]] + ms[1..];
    assert forall m :: m in ms <==> m in [ms[0]] || m in ms[1..];
  }

  lemma ScriptsCons(ms: seq<Migration>, up: bool)
    requires ms != []
    ensures Scripts(ms, up) == [Script(ms[0], up)] + Scripts(ms[1..], up)
  {}

  lemma GoThroughCons<S>(env: Env<S>, db: Db<S>, db1: Db<S>, ms: seq<Migration>, up: bool)
    requires ms != [] && db1.statements == db.statements + 2
    requires exists c <- Script(ms[0], up) :: !IsGoSpace(c)
    requires !env.fails(db.statements) && !env.fails(db.statements + 1)
    requires env.run(Script(ms[0], up), db.schema) == Some(db1.schema)
    requires GoThrough(env, db1, ms[1..], up)
    ensures GoThrough(env, db, ms, up)
    ensures RunScripts(env, db.schema, Scripts(ms, up)) == RunScripts(env, db1.schema, Scripts(ms[1..], up))
  {
    ScriptsCons(ms, up);
    RunScriptsCons(env, db.schema, Script(ms[0], up), Scripts(ms[1..], up));
    hide RunScripts;
    assert ms == [ms[0]] + ms[1..];
    forall i | db.statements <= i < db.statements + 2 * |ms| ensures !env.fails(i) {
      if i >= db1.statements {
        assert NoneFails(env, db1.statements, 2 * |ms[1..]|);
      }
    }
  }

  lemma StopsNow<S>(env: Env<S>, db: Db<S>, ms: seq<Migration>, up: bool)
    requires Ready(db.rows, ms, up) && db.hasTable
    requires ms == [] || ApplyMigration(env, db, ms[0], up).1.Some?
    ensures Stops(env, db, ApplyEach(env, db, ms, up), ms, up, 0)
  {
    assert ms[..0] == [] && Scripts([], up) == [];
    assert db.scripts + [] == db.scripts;
    if ms != [] {
      assert ms[0] in ms;
      ApplyIs(env, db, ms[0], up);
      hide ApplyMigration;
    }
  }

  lemma Prefixes(scripts: seq<string>, sql: string, ms: seq<Migration>, up: bool, j: nat)
    requires ms != [] && j < |ms| && sql == Script(ms[0], up)
    ensures ms[..j + 1] == [ms[0]] + ms[1..][..j] && ms[..j + 1][1..] == ms[1..][..j]
    ensures scripts + Scripts(ms[..j + 1], up) == scripts + [sql] + Scripts(ms[1..][..j], up)
  {
    assert ms[..j + 1][1..] == ms[1..][..j];
    ScriptsCons(ms[..j + 1], up);
  }

  /** The first migration went through, and led from `db` to `db1`. */
  ghost predicate FirstThrough<S>(env: Env<S>, db: Db<S>, db1: Db<S>, m: Migration, up: bool) {
    && (exists c <- Script(m, up) :: !IsGoSpace(c))
    && !env.fails(db.statements) && !env.fails(db.statements + 1)
    && env.run(Script(m, up), db.schema) == Some(db1.schema)
    && db1.statements == db.statements + 2 && db1.scripts == db.scripts + [Script(m, up)]
    && RowsAfter(db.rows, db1.rows, [m], up)
  }

  lemma FirstGoes<S>(env: Env<S>, db: Db<S>, m: Migration, up: bool)
    requires RowsAscending(db.rows) && db.hasTable && ApplyMigration(env, db, m, up).1.None?
    ensures FirstThrough(env, db, ApplyMigration(env, db, m, up).0, m, up) && ApplyMigration(env, db, m, up).0.hasTable
  {
    ApplyIs(env, db, m, up);
    hide ApplyMigration, RowsAfter;
  }

  lemma StopsLater<S>(env: Env<S>, db: Db<S>, db1: Db<S>, result: (Db<S>, Option<Error>), ms: seq<Migration>, up: bool, j: nat)
    requires ms != [] && FirstThrough(env, db, db1, ms[0], up) && Stops(env, db1, result, ms[1..], up, j)
    ensures Stops(env, db, result, ms, up, j + 1)
  {
    hide RunScripts;
    Prefixes(db.scripts, Script(ms[0], up), ms, up, j);
    GoThroughCons(env, db, db1, ms[..j + 1], up);
    RowsAfterCons(db.rows, db1.rows, result.0.rows, ms[..j + 1], up);
    hide RowsAfter, GoThrough, Scripts;
    assert db1.statements + 2 * j == db.statements + 2 * (j + 1);
    if j < |ms[1..]| {
      assert ms[1..][j] == ms[j + 1];
      assert db1.scripts + Scripts(ms[1..][..j], up) == db.scripts + Scripts(ms[..j + 1], up);
    }
  }

  lemma {:induction false} EachStops<S>(env: Env<S>, db: Db<S>, ms: seq<Migration>, up: bool) returns (k: nat)
    requires Ready(db.rows, ms, up) && db.hasTable
    ensures Stops(env, db, ApplyEach(env, db, ms, up), ms, up, k)
    decreases |ms|
  {
    if ms == [] || ApplyMigration(env, db, ms[0], up).1.Some? {
      k := 0;
      StopsNow(env, db, ms, up);
      hide *;
    } else {
      var db1 := ApplyMigration(env, db, ms[0], up).0;
      ReadyRest(env, db, ms, up);
      FirstGoes(env, db, ms[0], up);
      hide Stops, Ready, FirstThrough, ApplyMigration;
      assert ApplyEach(env, db, ms, up) == ApplyEach(env, db1, ms[1..], up);
      var j := EachStops(env, db1, ms[1..], up);
      StopsLater(env, db, db1, ApplyEach(env, db1, ms[1..], up), ms, up, j);
      k := j + 1;
    }
  }

  // ---------- migrating up ----------

  lemma {:induction false} UpEachIs<S>(env: Env<S>, db: Db<S>, ms: seq<Migration>)
    ensures UpEach(env, db, ms) == ApplyEach(env, db, ms, true)
    decreases |ms|
  {
    if ms != [] && ApplyMigration(env, db, ms[0], true).1.None? {
      UpEachIs(env, ApplyMigration(env, db, ms[0], true).0, ms[1..]);
    }
  }

  /** The migrations a run of `Up` or `UpTo` has before it: registered, not recorded, up to the target, in ascending
      order. */
  ghost predicate IsTodo(ms: seq<Migration>, rows: seq<Row>, target: Option<int>, todo: seq<Migration>) {
    && Ascending(todo)
    && forall m :: m in todo <==> m in ms && !Records(rows, m.version) && (target.Some? ==> m.version <= target.value)
  }

  lemma TodoIs(ms: seq<Migration>, rows: seq<Row>, target: Option<int>)
    requires Distinct(ms) && RowsAscending(rows)
    ensures IsTodo(ms, rows, target, Todo(Pending(ms, rows), target))
    ensures Ready(rows, Todo(Pending(ms, rows), target), true)
  {
    TodoReady(ms, rows, target);
    PendingExactly(ms, rows);
    if target.Some? {
      UpToPrefix(Pending(ms, rows), target.value);
    }
    hide Pending, Todo;
    forall version: int ensures Records(rows, version) <==> Lists(rows, version) {
      RecordsIsLists(rows, version);
    }
  }

  /** `Up` and `UpTo` take three statements to find what is to be done; if one of them fails nothing is done. Then they
      go as far as the scripts and the database let them, and the error is the reason why they stop. */
  lemma UpStops<S>(env: Env<S>, db: Db<S>, ms: seq<Migration>, target: Option<int>) returns (todo: seq<Migration>, k: nat)
    requires Distinct(ms) && RowsAscending(db.rows)
    ensures IsTodo(ms, db.rows, target, todo)
    ensures
      var (after, error) := Up(env, db, ms, target);
      if NoneFails(env, db.statements, 3)
      then Stops(env, db.(statements := db.statements + 3), (after, error), todo, true, k)
      else error == Some(DatabaseError) && (after.schema, after.rows, after.scripts) == (db.schema, db.rows, db.scripts)
  {
    todo, k := Todo(Pending(ms, db.rows), target), 0;
    TodoIs(ms, db.rows, target);
    UpStarts(env, db, ms, target);
    hide Up, UpEach, ApplyEach, Pending, Todo, Stops, IsTodo, Ready;
    if NoneFails(env, db.statements, 3) {
      var start := db.(statements := db.statements + 3, hasTable := true);
      UpEachIs(env, start, todo);
      k := EachStops(env, start, todo, true);
      StopsFrom(env, db.(statements := db.statements + 3), start, UpEach(env, start, todo), todo, true, k);
    }
  }

  lemma UpStarts<S>(env: Env<S>, db: Db<S>, ms: seq<Migration>, target: Option<int>)
    ensures
      var (after, error) := Up(env, db, ms, target);
      if NoneFails(env, db.statements, 3)
      then (after, error) ==
             UpEach(env, db.(statements := db.statements + 3, hasTable := true), Todo(Pending(ms, db.rows), target))
      else error == Some(DatabaseError) && (after.schema, after.rows, after.scripts) == (db.schema, db.rows, db.scripts)
  {
    hide Pending, Todo, UpEach;
    FailsAmong(env, db.statements);
  }

  lemma FailsAmong<S>(env: Env<S>, n: nat)
    ensures NoneFails(env, n, 2) <==> !env.fails(n) && !env.fails(n + 1)
    ensures NoneFails(env, n, 3) <==> !env.fails(n) && !env.fails(n + 1) && !env.fails(n + 2)
  {}

  lemma StopsFrom<S>(env: Env<S>, a: Db<S>, b: Db<S>, result: (Db<S>, Option<Error>), ms: seq<Migration>, up: bool, k: nat)
    requires b == a.(hasTable := true) && Stops(env, b, result, ms, up, k)
    ensures Stops(env, a, result, ms, up, k)
  {}

  /** `Up` reports success exactly when no script is blank, no statement fails, and every script runs after those before
      it. */
  lemma UpSucceedsIff<S>(env: Env<S>, db: Db<S>, ms: seq<Migration>, target: Option<int>) returns (todo: seq<Migration>)
    requires Distinct(ms) && RowsAscending(db.rows)
    ensures IsTodo(ms, db.rows, target, todo)
    ensures
      Up(env, db, ms, target).1.None? <==>
        NoneFails(env, db.statements, 3) && GoThrough(env, db.(statements := db.statements + 3), todo, true)
  {
    var k;
    todo, k := UpStops(env, db, ms, target);
    if NoneFails(env, db.statements, 3) {
      StopsShort(env, db.(statements := db.statements + 3), Up(env, db, ms, target), todo, true, k);
    }
  }

  lemma {:induction false} RunScriptsPrefix<S>(env: Env<S>, schema: S, scripts: seq<string>, n: nat)
    requires n <= |scripts| && RunScripts(env, schema, scripts).Some?
    ensures RunScripts(env, schema, scripts[..n]).Some?
    decreases |scripts|
  {
    if n < |scripts| {
      RunScriptsPrefix(env, schema, scripts[..|scripts| - 1], n);
      assert scripts[..|scripts| - 1][..n] == scripts[..n];
    } else {
      assert scripts[..n] == scripts;
    }
  }

  lemma RunScriptsLast<S>(env: Env<S>, schema: S, scripts: seq<string>)
    requires scripts != [] && RunScripts(env, schema, scripts).Some?
    ensures
      var before := RunScripts(env, schema, scripts[..|scripts| - 1]);
      before.Some? && env.run(scripts[|scripts| - 1], before.value).Some?
  {}

  /** If all go through, so does each after those before it. */
  lemma GoThroughAt<S>(env: Env<S>, db: Db<S>, ms: seq<Migration>, up: bool, k: nat)
    requires GoThrough(env, db, ms, up) && k < |ms|
    ensures exists c <- Script(ms[k], up) :: !IsGoSpace(c)
    ensures !env.fails(db.statements + 2 * k) && !env.fails(db.statements + 2 * k + 1)
    ensures
      var schema := RunScripts(env, db.schema, Scripts(ms[..k], up));
      schema.Some? && env.run(Script(ms[k], up), schema.value).Some?
  {
    var scripts := Scripts(ms, up);
    RunScriptsPrefix(env, db.schema, scripts, k + 1);
    RunScriptsLast(env, db.schema, scripts[..k + 1]);
    hide RunScripts;
    assert scripts[..k + 1][..k] == Scripts(ms[..k], up) && scripts[..k + 1][k] == Script(ms[k], up);
    assert ms[k] in ms;
  }

  /** Whoever stops before the end has a migration that does not go through. */
  lemma StopsShort<S>(env: Env<S>, db: Db<S>, result: (Db<S>, Option<Error>), ms: seq<Migration>, up: bool, k: nat)
    requires Stops(env, db, result, ms, up, k)
    ensures result.1.None? <==> k == |ms|
    ensures result.1.None? <==> GoThrough(env, db, ms, up)
  {
    if k == |ms| {
      assert ms[..k] == ms;
    } else {
      NotThrough(env, db, result, ms, up, k);
    }
  }

  lemma NotThrough<S>(env: Env<S>, db: Db<S>, result: (Db<S>, Option<Error>), ms: seq<Migration>, up: bool, k: nat)
    requires Stops(env, db, result, ms, up, k) && k < |ms|
    ensures result.1.Some? && !GoThrough(env, db, ms, up)
  {
    var stuck := var sql, schema := Script(ms[k], up), RunScripts(env, db.schema, Scripts(ms[..k], up)).value;
      || (forall c <- sql :: IsGoSpace(c))
      || env.fails(db.statements + 2 * k) || env.run(sql, schema).None? || env.fails(db.statements + 2 * k + 1);
    assert stuck && result.1.Some?;
    hide Stops, RunScripts;
    if GoThrough(env, db, ms, up) {
      GoThroughAt(env, db, ms, up, k);
    }
  }

  // ---------- migrating down ----------

  /** The registered migrations of the rows above the target, highest first. */
  function ToUndo(ms: seq<Migration>, rows: seq<Row>, target: int): seq<Migration> {
    if rows == [] || rows[|rows| - 1].version <= target then []
    else
      var m, rest := Registered(ms, rows[|rows| - 1].version), ToUndo(ms, rows[..|rows| - 1], target);
      if m.None? then rest else [m.value] + rest
  }

  lemma {:induction false} DownEachIs<S>(env: Env<S>, db: Db<S>, ms: seq<Migration>, rows: seq<Row>, target: int)
    ensures DownEach(env, db, ms, rows, target) == ApplyEach(env, db, ToUndo(ms, rows, target), false)
    decreases |rows|
  {
    if rows != [] && rows[|rows| - 1].version > target {
      var m, rest := Registered(ms, rows[|rows| - 1].version), ToUndo(ms, rows[..|rows| - 1], target);
      if m.None? {
        DownEachIs(env, db, ms, rows[..|rows| - 1], target);
      } else {
        assert ([m.value] + rest)[1..] == rest;
        hide ApplyMigration;
        DownEachIs(env, ApplyMigration(env, db, m.value, false).0, ms, rows[..|rows| - 1], target);
      }
    }
  }

  ghost predicate Descending(ms: seq<Migration>) {
    forall i, j :: 0 <= i < j < |ms| ==> ms[i].version > ms[j].version
  }

  /** The migrations a run of `DownTo` has before it: registered and recorded, above the target, in descending order. */
  ghost predicate IsUndo(ms: seq<Migration>, rows: seq<Row>, target: int, undo: seq<Migration>) {
    && Descending(undo)
    && forall m :: m in undo <==> m in ms && Records(rows, m.version) && m.version > target
  }

  lemma {:induction false} RegisteredIs(ms: seq<Migration>, version: int)
    ensures match Registered(ms, version)
            case None => forall m <- ms :: m.version != version
            case Some(m) => m in ms && m.version == version
  {
    if ms != [] {
      RegisteredIs(ms[1..], version);
      assert ms == [ms[0]] + ms[1..];
    }
  }

  lemma SameVersion(ms: seq<Migration>, a: Migration, b: Migration)
    requires Distinct(ms) && a in ms && b in ms && a.version == b.version
    ensures a == b
  {
    RegisteredFinds(ms, a);
    RegisteredFinds(ms, b);
  }

  lemma RowsBefore(rows: seq<Row>, version: int)
    requires rows != [] && RowsAscending(rows)
    ensures Records(rows, version) <==> Records(rows[..|rows| - 1], version) || rows[|rows| - 1].version == version
    ensures Records(rows, version) ==> version <= rows[|rows| - 1].version
    ensures Records(rows[..|rows| - 1], version) ==> version < rows[|rows| - 1].version
    ensures RowsAscending(rows[..|rows| - 1])
  {
    var n := |rows| - 1;
    assert rows == rows[..n] + [rows[n]];
    if Records(rows[..n], version) {
      var r :| r in rows[..n] && r.version == version;
      var i :| 0 <= i < n && rows[..n][i] == r;
      assert rows[i].version < rows[n].version;
    }
  }

  lemma {:induction false} UndoIs(ms: seq<Migration>, rows: seq<Row>, target: int)
    requires Distinct(ms) && RowsAscending(rows)
    ensures IsUndo(ms, rows, target, ToUndo(ms, rows, target))
    decreases |rows|
  {
    var n := |rows| - 1;
    if rows != [] {
      forall m | m in ms ensures
        && (Records(rows, m.version) <==> Records(rows[..n], m.version) || rows[n].version == m.version)
        && (Records(rows, m.version) ==> m.version <= rows[n].version)
        && (Records(rows[..n], m.version) ==> m.version < rows[n].version)
      {
        RowsBefore(rows, m.version);
      }
      hide Records;
      if rows[n].version > target {
        assert RowsAscending(rows[..n]);
        UndoIs(ms, rows[..n], target);
        var top, rest := Registered(ms, rows[n].version), ToUndo(ms, rows[..n], target);
        RegisteredIs(ms, rows[n].version);
        if top.Some? {
          UndoCons(ms, rows, target, top.value, rest);
        }
      }
    }
  }

  lemma UndoCons(ms: seq<Migration>, rows: seq<Row>, target: int, top: Migration, rest: seq<Migration>)
    requires Distinct(ms) && RowsAscending(rows) && rows != [] && rows[|rows| - 1].version > target
    requires top in ms && top.version == rows[|rows| - 1].version && IsUndo(ms, rows[..|rows| - 1], target, rest)
    ensures IsUndo(ms, rows, target, [top] + rest)
  {
    var n := |rows| - 1;
    forall i | 0 <= i < |rest| ensures rest[i].version < top.version {
      assert rest[i] in rest;
      RowsBefore(rows, rest[i].version);
    }
    forall m ensures m in [top] + rest <==> m in ms && Records(rows, m.version) && m.version > target {
      RowsBefore(rows, m.version);
      if m in ms && m.version == top.version {
        SameVersion(ms, m, top);
      }
    }
  }

  /** `DownTo` takes two statements to find what is recorded; if one of them fails nothing is done. Then it rolls back,
      highest first, what is registered, recorded and above the target, as far as the scripts and the database let it;
      rows that no registered migration stands for stay. */
  lemma DownToStops<S>(env: Env<S>, db: Db<S>, ms: seq<Migration>, target: int) returns (undo: seq<Migration>, k: nat)
    requires Distinct(ms) && RowsAscending(db.rows)
    ensures IsUndo(ms, db.rows, target, undo)
    ensures
      var (after, error) := DownTo(env, db, ms, target);
      if NoneFails(env, db.statements, 2)
      then Stops(env, db.(statements := db.statements + 2), (after, error), undo, false, k)
      else error == Some(DatabaseError) && (after.schema, after.rows, after.scripts) == (db.schema, db.rows, db.scripts)
  {
    undo, k := ToUndo(ms, db.rows, target), 0;
    UndoIs(ms, db.rows, target);
    DownToStarts(env, db, ms, target);
    assert Ready(db.rows, undo, false);
    hide DownTo, DownEach, ApplyEach, ToUndo, Stops, IsUndo, Ready;
    if NoneFails(env, db.statements, 2) {
      var start := db.(statements := db.statements + 2, hasTable := true);
      DownEachIs(env, start, ms, db.rows, target);
      k := EachStops(env, start, undo, false);
      StopsFrom(env, db.(statements := db.statements + 2), start, DownTo(env, db, ms, target), undo, false, k);
    }
  }

  lemma DownToStarts<S>(env: Env<S>, db: Db<S>, ms: seq<Migration>, target: int)
    ensures
      var (after, error) := DownTo(env, db, ms, target);
      if NoneFails(env, db.statements, 2)
      then (after, error) == DownEach(env, db.(statements := db.statements + 2, hasTable := true), ms, db.rows, target)
      else error == Some(DatabaseError) && (after.schema, after.rows, after.scripts) == (db.schema, db.rows, db.scripts)
  {
    hide DownEach;
    FailsAmong(env, db.statements);
  }

  /** It reports success exactly when no script is blank, no statement fails, and every script runs after those before
      it; then just the rows at or below the target and those not registered are left. */
  lemma DownToSucceedsIff<S>(env: Env<S>, db: Db<S>, ms: seq<Migration>, target: int) returns (undo: seq<Migration>)
    requires Distinct(ms) && RowsAscending(db.rows)
    ensures IsUndo(ms, db.rows, target, undo)
    ensures
      var (after, error) := DownTo(env, db, ms, target);
      && (error.None? <==>
            NoneFails(env, db.statements, 2) && GoThrough(env, db.(statements := db.statements + 2), undo, false))
      && (error.None? ==> forall r :: r in after.rows <==>
            r in db.rows && (r.version <= target || forall m <- ms :: m.version != r.version))
  {
    var k;
    undo, k := DownToStops(env, db, ms, target);
    if NoneFails(env, db.statements, 2) {
      StopsShort(env, db.(statements := db.statements + 2), DownTo(env, db, ms, target), undo, false, k);
      if DownTo(env, db, ms, target).1.None? {
        assert k == |undo| && undo[..k] == undo;
        LeftOver(ms, db.rows, DownTo(env, db, ms, target).0.rows, target, undo);
      }
    }
  }

  lemma LeftOver(ms: seq<Migration>, rows: seq<Row>, after: seq<Row>, target: int, undo: seq<Migration>)
    requires IsUndo(ms, rows, target, undo) && RowsAfter(rows, after, undo, false)
    ensures forall r :: r in after <==> r in rows && (r.version <= target || forall m <- ms :: m.version != r.version)
  {
    forall r | r in rows && !(r.version <= target || forall m <- ms :: m.version != r.version) ensures r !in after {
      var m :| m in ms && m.version == r.version;
      assert Records(rows, m.version);
      assert m in undo;
    }
  }

  /** `Down` rolls back the highest recorded version and nothing else: with its `down` script, if it is registered, and
      otherwise it says so and changes nothing. Without rows there is nothing to do. */
  lemma DownUndoesHighest<S>(env: Env<S>, db: Db<S>, ms: seq<Migration>, top: int)
    requires Distinct(ms) && RowsAscending(db.rows)
    requires db.rows != [] ==> Records(db.rows, top) && forall r <- db.rows :: r.version <= top
    ensures
      var (after, error) := Down(env, db, ms);
      var same := (after.schema, after.rows, after.scripts) == (db.schema, db.rows, db.scripts);
      if !NoneFails(env, db.statements, 2) then error == Some(DatabaseError) && same
      else if db.rows == [] then error == None && same
      else if forall m <- ms :: m.version != top then error == Some(NotRegistered(top)) && same
      else forall m <- ms :: m.version == top ==>
             Stops(env, db.(statements := db.statements + 2), (after, error), [m], false, if error.None? then 1 else 0)
  {
    FailsAmong(env, db.statements);
    if NoneFails(env, db.statements, 2) {
      var start := db.(statements := db.statements + 2, hasTable := true);
      if db.rows != [] {
        HighestIsLast(db.rows, top);
        RegisteredIs(ms, top);
        forall m | m in ms && m.version == top
          ensures
            var (after, error) := Down(env, db, ms);
            Stops(env, db.(statements := db.statements + 2), (after, error), [m], false, if error.None? then 1 else 0)
        {
          SameVersion(ms, m, Registered(ms, top).value);
          DownOne(env, db, start, ms, m);
        }
      }
    }
  }

  lemma HighestIsLast(rows: seq<Row>, top: int)
    requires rows != [] && RowsAscending(rows) && Records(rows, top) && forall r <- rows :: r.version <= top
    ensures rows[|rows| - 1].version == top
  {
    RowsBefore(rows, top);
    assert rows[|rows| - 1] in rows;
  }

  lemma DownOne<S>(env: Env<S>, db: Db<S>, start: Db<S>, ms: seq<Migration>, m: Migration)
    requires NoneFails(env, db.statements, 2) && start == db.(statements := db.statements + 2, hasTable := true)
    requires RowsAscending(db.rows) && db.rows != [] && Registered(ms, db.rows[|db.rows| - 1].version) == Some(m)
    ensures
      var (after, error) := Down(env, db, ms);
      Stops(env, db.(statements := db.statements + 2), (after, error), [m], false, if error.None? then 1 else 0)
  {
    FailsAmong(env, db.statements);
    assert [m][0] == m && [m][1..] == [];
    assert Down(env, db, ms) == ApplyMigration(env, start, m, false);
    var result := ApplyEach(env, start, [m], false);
    assert result == ApplyMigration(env, start, m, false) by {
      hide ApplyMigration;
      var (db1, error) := ApplyMigration(env, start, m, false);
      assert ApplyEach(env, db1, [], false) == (db1, None);
    }
    var k := EachStops(env, start, [m], false);
    assert k == if result.1.None? then 1 else 0;
    StopsFrom(env, db.(statements := db.statements + 2), start, result, [m], false, k);
  }
}
