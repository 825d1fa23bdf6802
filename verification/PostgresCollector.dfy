/** The Postgres collector: three queries, each followed by gauge updates for its rows. A collect
    can end at each query by an error or by an abort of its task, so what the gauges show
    is a question about prefixes of stages. */
module PostgresCollector {
  import opened Wrappers
  import opened Numbers

  // ---------- rows ----------

  /** A JSON value as `serde_json` holds it; integers are those of `i64` and `u64`. */
  datatype Json = Null | Bool(b: bool) | Int(n: int) | Float(x: real) | Str(s: string) | Composite

  type Row = map<string, Json>

  function Clamp(n: int): i64 {
    if n < I64_MIN then I64_MIN else if n > I64_MAX then I64_MAX else n
  }

  /** `f64 as i64`: toward zero, saturating. */
  function Truncate(x: real): (n: i64)
    ensures 0.0 <= x < 9223372036854775808.0 ==> n as real <= x < n as real + 1.0
    ensures -9223372036854775808.0 <= x <= 0.0 ==> n as real - 1.0 < x <= n as real
    ensures x >= 9223372036854775808.0 ==> n == 9223372036854775807
    ensures x <= -9223372036854775808.0 ==> n == -9223372036854775808
  {
    if x >= 0.0 then Clamp(x.Floor) else Clamp(-((-x).Floor))
  }

  /** Integers that fit are read as they are, larger ones and floats through the float cast, and
      everything else is 0. */
  function GetI64(row: Row, key: string): i64 {
    if key !in row then 0
    else
      match row[key]
      case Int(n) => Clamp(n)
      case Float(x) => Truncate(x)
      case _ => 0
  }

  function GetStr(row: Row, key: string): string {
    if key in row && row[key].Str? then row[key].s else ""
  }

  // ---------- what the gauges stand for ----------

  datatype PoolStatus = PoolStatus(maxSize: u32, available: u32, inUse: u32)

  /** Behind the gauge vectors: for each label the row that was applied to it last. */
  datatype Shown = Shown(
    active: i64, idle: i64, max: i64,
    databases: map<string, Row>,
    tables: map<(string, string), Row>,
    locks: map<string, Row>)

  const NOTHING := Shown(0, 0, 0, map[], map[], map[])

  function Column<L>(rows: map<L, Row>, key: string): map<L, i64> {
    map l | l in rows :: GetI64(rows[l], key)
  }

  function DbLabel(row: Row): string { GetStr(row, "datname") }

  function TableLabel(row: Row): (string, string) { (GetStr(row, "schemaname"), GetStr(row, "relname")) }

  function LockLabel(row: Row): string { GetStr(row, "mode") }

  function Upsert<L>(m: map<L, Row>, rows: seq<Row>, labelOf: Row -> L): map<L, Row> {
    if rows == [] then m
    else
      var last := rows[|rows| - 1];
      Upsert(m, rows[..|rows| - 1], labelOf)[labelOf(last) := last]
  }

  /** A stage of one collect. */
  datatype Stage = Pool(status: PoolStatus) | Databases(rows: seq<Row>) | Tables(rows: seq<Row>) | Locks(rows: seq<Row>)

  function Apply(s: Shown, stage: Stage): Shown {
    match stage
    case Pool(p) => s.(active := p.inUse, idle := p.available, max := p.maxSize)
    case Databases(rows) => s.(databases := Upsert(s.databases, rows, DbLabel))
    case Tables(rows) => s.(tables := Upsert(s.tables, rows, TableLabel))
    case Locks(rows) => s.(locks := Upsert(s.locks, rows, LockLabel))
  }

  function ApplyAll(s: Shown, stages: seq<Stage>): Shown {
    if stages == [] then s else Apply(ApplyAll(s, stages[..|stages| - 1]), stages[|stages| - 1])
  }

  // ---------- the collector ----------

  /** How the await of one query ends. */
  datatype Reply = Rows(rows: seq<Row>) | QueryError | AbortedHere

  datatype Outcome = Done | Failed | Cancelled

  /** What one collect meets. */
  datatype Round = Round(status: PoolStatus, db: Reply, tables: Reply, locks: Reply)

  /** The stages a collect carries out: the pool status, then one for each query up to the first
      that brings no rows. */
  function StagesOf(r: Round): seq<Stage> {
    if !r.db.Rows? then [Pool(r.status)]
    else if !r.tables.Rows? then [Pool(r.status), Databases(r.db.rows)]
    else if !r.locks.Rows? then [Pool(r.status), Databases(r.db.rows), Tables(r.tables.rows)]
    else [Pool(r.status), Databases(r.db.rows), Tables(r.tables.rows), Locks(r.locks.rows)]
  }

  /** The queries are made in order up to the first without rows, and that one decides. */
  function OutcomeOf(r: Round): Outcome {
    var last := if !r.db.Rows? then r.db else if !r.tables.Rows? then r.tables else r.locks;
    match last
    case Rows(_) => Done
    case QueryError => Failed
    case AbortedHere => Cancelled
  }

  lemma ColumnUpsert<L>(m: map<L, Row>, l: L, row: Row, key: string)
    ensures Column(m[l := row], key) == Column(m, key)[l := GetI64(row, key)]
  {
  }

  class PostgresMetrics {
    var poolActive: i64
    var poolIdle: i64
    var poolMax: i64
    var dbNumbackends: map<string, i64>
    var dbXactCommit: map<string, i64>
    var dbXactRollback: map<string, i64>
    var dbBlksHit: map<string, i64>
    var dbBlksRead: map<string, i64>
    var dbSizeBytes: map<string, i64>
    var tableSeqScan: map<(string, string), i64>
    var tableIdxScan: map<(string, string), i64>
    var tableLiveTup: map<(string, string), i64>
    var tableDeadTup: map<(string, string), i64>
    var lockCount: map<string, i64>
    ghost var shown: Shown

    ghost predicate PoolValid()
      reads this
    {
      poolActive == shown.active && poolIdle == shown.idle && poolMax == shown.max
    }

    ghost predicate DatabasesValid()
      reads this
    {
      && dbNumbackends == Column(shown.databases, "numbackends")
      && dbXactCommit == Column(shown.databases, "xact_commit")
      && dbXactRollback == Column(shown.databases, "xact_rollback")
      && dbBlksHit == Column(shown.databases, "blks_hit")
      && dbBlksRead == Column(shown.databases, "blks_read")
      && dbSizeBytes == Column(shown.databases, "size_bytes")
    }

    ghost predicate TablesValid()
      reads this
    {
      && tableSeqScan == Column(shown.tables, "seq_scan")
      && tableIdxScan == Column(shown.tables, "idx_scan")
      && tableLiveTup == Column(shown.tables, "n_live_tup")
      && tableDeadTup == Column(shown.tables, "n_dead_tup")
    }

    ghost predicate LocksValid()
      reads this
    {
      lockCount == Column(shown.locks, "cnt")
    }

    /** Each vector is one column of the rows behind it: so the six database vectors have one
        label set and, label by label, come from one row, and likewise the table vectors. */
    ghost predicate Valid()
      reads this
    {
      PoolValid() && DatabasesValid() && TablesValid() && LocksValid()
    }

    constructor ()
      ensures Valid() && shown == NOTHING
    {
      poolActive, poolIdle, poolMax := 0, 0, 0;
      dbNumbackends, dbXactCommit, dbXactRollback := map[], map[], map[];
      dbBlksHit, dbBlksRead, dbSizeBytes := map[], map[], map[];
      tableSeqScan, tableIdxScan, tableLiveTup, tableDeadTup := map[], map[], map[], map[];
      lockCount := map[];
      shown := NOTHING;
    }

    method SetPool(status: PoolStatus)
      requires Valid()
      modifies this`poolActive, this`poolIdle, this`poolMax, this`shown
      ensures Valid() && shown == Apply(old(shown), Pool(status))
      ensures poolActive == status.inUse && poolIdle == status.available && poolMax == status.maxSize
    {
      poolActive := status.inUse;
      poolIdle := status.available;
      poolMax := status.maxSize;
      shown := Apply(shown, Pool(status));
    }

    method SetDatabase(row: Row)
      requires DatabasesValid()
      modifies this`dbNumbackends, this`dbXactCommit, this`dbXactRollback,
               this`dbBlksHit, this`dbBlksRead, this`dbSizeBytes, this`shown
      ensures DatabasesValid()
      ensures shown == old(shown).(databases := old(shown).databases[DbLabel(row) := row])
      ensures dbNumbackends == old(dbNumbackends)[DbLabel(row) := GetI64(row, "numbackends")]
      ensures dbXactCommit == old(dbXactCommit)[DbLabel(row) := GetI64(row, "xact_commit")]
      ensures dbXactRollback == old(dbXactRollback)[DbLabel(row) := GetI64(row, "xact_rollback")]
      ensures dbBlksHit == old(dbBlksHit)[DbLabel(row) := GetI64(row, "blks_hit")]
      ensures dbBlksRead == old(dbBlksRead)[DbLabel(row) := GetI64(row, "blks_read")]
      ensures dbSizeBytes == old(dbSizeBytes)[DbLabel(row) := GetI64(row, "size_bytes")]
    {
      var db := DbLabel(row);
      dbNumbackends := dbNumbackends[db := GetI64(row, "numbackends")];
      dbXactCommit := dbXactCommit[db := GetI64(row, "xact_commit")];
      dbXactRollback := dbXactRollback[db := GetI64(row, "xact_rollback")];
      dbBlksHit := dbBlksHit[db := GetI64(row, "blks_hit")];
      dbBlksRead := dbBlksRead[db := GetI64(row, "blks_read")];
      dbSizeBytes := dbSizeBytes[db := GetI64(row, "size_bytes")];
      DbColumns(shown.databases, db, row);
      shown := shown.(databases := shown.databases[db := row]);
    }

    method SetDatabases(rows: seq<Row>)
      requires DatabasesValid()
      modifies this`dbNumbackends, this`dbXactCommit, this`dbXactRollback,
               this`dbBlksHit, this`dbBlksRead, this`dbSizeBytes, this`shown
      ensures DatabasesValid() && shown == Apply(old(shown), Databases(rows))
    {
      for n := 0 to |rows|
        invariant DatabasesValid()
        invariant shown == Apply(old(shown), Databases(rows[..n]))
      {
        assert rows[..n + 1][..n] == rows[..n];
        SetDatabase(rows[n]);
      }
      assert rows[..|rows|] == rows;
    }

    method StageDatabases(rows: seq<Row>)
      requires Valid()
      modifies this`dbNumbackends, this`dbXactCommit, this`dbXactRollback,
               this`dbBlksHit, this`dbBlksRead, this`dbSizeBytes, this`shown
      ensures Valid() && shown == Apply(old(shown), Databases(rows))
    {
      SetDatabases(rows);
    }

    method SetTable(row: Row)
      requires TablesValid()
      modifies this`tableSeqScan, this`tableIdxScan, this`tableLiveTup, this`tableDeadTup, this`shown
      ensures TablesValid()
      ensures shown == old(shown).(tables := old(shown).tables[TableLabel(row) := row])
      ensures tableSeqScan == old(tableSeqScan)[TableLabel(row) := GetI64(row, "seq_scan")]
      ensures tableIdxScan == old(tableIdxScan)[TableLabel(row) := GetI64(row, "idx_scan")]
      ensures tableLiveTup == old(tableLiveTup)[TableLabel(row) := GetI64(row, "n_live_tup")]
      ensures tableDeadTup == old(tableDeadTup)[TableLabel(row) := GetI64(row, "n_dead_tup")]
    {
      var table := TableLabel(row);
      tableSeqScan := tableSeqScan[table := GetI64(row, "seq_scan")];
      tableIdxScan := tableIdxScan[table := GetI64(row, "idx_scan")];
      tableLiveTup := tableLiveTup[table := GetI64(row, "n_live_tup")];
      tableDeadTup := tableDeadTup[table := GetI64(row, "n_dead_tup")];
      TableColumns(shown.tables, table, row);
      shown := shown.(tables := shown.tables[table := row]);
    }

    method SetTables(rows: seq<Row>)
      requires TablesValid()
      modifies this`tableSeqScan, this`tableIdxScan, this`tableLiveTup, this`tableDeadTup, this`shown
      ensures TablesValid() && shown == Apply(old(shown), Tables(rows))
    {
      for n := 0 to |rows|
        invariant TablesValid()
        invariant shown == Apply(old(shown), Tables(rows[..n]))
      {
        assert rows[..n + 1][..n] == rows[..n];
        SetTable(rows[n]);
      }
      assert rows[..|rows|] == rows;
    }

    method StageTables(rows: seq<Row>)
      requires Valid()
      modifies this`tableSeqScan, this`tableIdxScan, this`tableLiveTup, this`tableDeadTup, this`shown
      ensures Valid() && shown == Apply(old(shown), Tables(rows))
    {
      SetTables(rows);
    }

    method SetLocks(rows: seq<Row>)
      requires LocksValid()
      modifies this`lockCount, this`shown
      ensures LocksValid() && shown == Apply(old(shown), Locks(rows))
    {
      for n := 0 to |rows|
        invariant LocksValid()
        invariant shown == Apply(old(shown), Locks(rows[..n]))
      {
        assert rows[..n + 1][..n] == rows[..n];
        var row := rows[n];
        lockCount := lockCount[LockLabel(row) := GetI64(row, "cnt")];
        ColumnUpsert(shown.locks, LockLabel(row), row, "cnt");
        shown := shown.(locks := shown.locks[LockLabel(row) := row]);
      }
      assert rows[..|rows|] == rows;
    }

    method StageLocks(rows: seq<Row>)
      requires Valid()
      modifies this`lockCount, this`shown
      ensures Valid() && shown == Apply(old(shown), Locks(rows))
    {
      SetLocks(rows);
    }

    /** One collect: each stage wholly or not at all, and the stages done are a prefix. The pool
        gauges are new however it ends. */
    method Collect(r: Round) returns (outcome: Outcome)
      requires Valid()
      modifies this
      ensures Valid() && shown == ApplyAll(old(shown), StagesOf(r)) && outcome == OutcomeOf(r)
      ensures poolActive == r.status.inUse && poolIdle == r.status.available && poolMax == r.status.maxSize
    {
      StagesUnfold(shown, r);
      SetPool(r.status);
      if !r.db.Rows? {
        return if r.db.QueryError? then Failed else Cancelled;
      }
      StageDatabases(r.db.rows);
      if !r.tables.Rows? {
        return if r.tables.QueryError? then Failed else Cancelled;
      }
      StageTables(r.tables.rows);
      if !r.locks.Rows? {
        return if r.locks.QueryError? then Failed else Cancelled;
      }
      StageLocks(r.locks.rows);
      return Done;
    }

    ghost predicate PoolShows(status: PoolStatus)
      reads this
    {
      poolActive == status.inUse && poolIdle == status.available && poolMax == status.maxSize
    }

    ghost predicate DatabasesShow(rows: seq<Row>)
      reads this
    {
      && ShowsRows(dbNumbackends, rows, DbLabel, "numbackends")
      && ShowsRows(dbXactCommit, rows, DbLabel, "xact_commit")
      && ShowsRows(dbXactRollback, rows, DbLabel, "xact_rollback")
      && ShowsRows(dbBlksHit, rows, DbLabel, "blks_hit")
      && ShowsRows(dbBlksRead, rows, DbLabel, "blks_read")
      && ShowsRows(dbSizeBytes, rows, DbLabel, "size_bytes")
    }

    ghost predicate TablesShow(rows: seq<Row>)
      reads this
    {
      && ShowsRows(tableSeqScan, rows, TableLabel, "seq_scan")
      && ShowsRows(tableIdxScan, rows, TableLabel, "idx_scan")
      && ShowsRows(tableLiveTup, rows, TableLabel, "n_live_tup")
      && ShowsRows(tableDeadTup, rows, TableLabel, "n_dead_tup")
    }

    /** All eleven vectors are what the rows applied by `stages` say. */
    ghost predicate ShowsStages(stages: seq<Stage>)
      reads this
    {
      && DatabasesShow(RowsOf(stages, 1)) && TablesShow(RowsOf(stages, 2))
      && ShowsRows(lockCount, RowsOf(stages, 3), LockLabel, "cnt")
    }

    /** The `n`-th collect of the loop, where the object follows the task `t`. */
    method CollectNext(ghost t: Task, rounds: seq<Round>, n: nat) returns (outcome: Outcome)
      requires Valid() && n < |rounds| && RunFrom(t, EventsOf(rounds[..n])).at.AtTick?
      requires shown == RunFrom(t, EventsOf(rounds[..n])).shown
      modifies this
      ensures Valid() && shown == RunFrom(t, EventsOf(rounds[..n + 1])).shown
      ensures RunFrom(t, EventsOf(rounds[..n + 1])).at == if outcome == Cancelled then Stopped else AtTick
      ensures PoolShows(rounds[n].status)
    {
      OneMoreRound(t, rounds, n);
      outcome := Collect(rounds[n]);
    }

    /** The collects of the loop, after any run `before` and until one is cancelled: the object follows
        the task, and each of its vectors has exactly the labels of the rows applied so far and shows
        for each label its column of the last such row. `n` collects were begun, and the pool gauges
        are those of the last of them. */
    method CollectAll(ghost before: seq<Event>, rounds: seq<Round>) returns (n: nat)
      requires Valid() && shown == Run(before).shown && Run(before).at.AtTick?
      modifies this
      ensures Valid() && shown == Run(before + EventsOf(rounds)).shown
      ensures ShowsStages(Flatten(Run(before + EventsOf(rounds)).log))
      ensures Begun(rounds, n) && (n > 0 ==> PoolShows(rounds[n - 1].status))
    {
      n := 0;
      ghost var t := Run(before);
      while n < |rounds|
        invariant n <= |rounds| && Valid() && shown == RunFrom(t, EventsOf(rounds[..n])).shown
        invariant RunFrom(t, EventsOf(rounds[..n])).at.AtTick?
        invariant n > 0 ==> PoolShows(rounds[n - 1].status)
      {
        var outcome := CollectNext(t, rounds, n);
        n := n + 1;
        if outcome == Cancelled {
          Concluded(before, rounds, n, t);
          return;
        }
      }
      Concluded(before, rounds, n, t);
    }

    lemma Concluded(before: seq<Event>, rounds: seq<Round>, n: nat, t: Task)
      requires Valid() && n <= |rounds| && t == Run(before) && t.at.AtTick?
      requires shown == RunFrom(t, EventsOf(rounds[..n])).shown
      requires EndsHere(t, rounds, n)
      ensures shown == Run(before + EventsOf(rounds)).shown && Begun(rounds, n)
      ensures ShowsStages(Flatten(Run(before + EventsOf(rounds)).log))
    {
      BegunAll(t, rounds, n);
      RunConcat(NEW_TASK, before, EventsOf(rounds));
      FollowsTask(before + EventsOf(rounds));
    }

    lemma FollowsTask(events: seq<Event>)
      requires Valid() && shown == Run(events).shown
      ensures ShowsStages(Flatten(Run(events).log))
    {
      TaskShows(events);
      VectorsShow(Flatten(Run(events).log));
    }

    lemma VectorsShow(stages: seq<Stage>)
      requires Valid() && shown == ApplyAll(NOTHING, stages)
      ensures ShowsStages(stages)
    {
      ShownIsUpsert(stages);
      DatabaseVectorsShow(RowsOf(stages, 1));
      TableVectorsShow(RowsOf(stages, 2));
      UpsertShowsRows(RowsOf(stages, 3), LockLabel, "cnt");
    }

    lemma DatabaseVectorsShow(rows: seq<Row>)
      requires DatabasesValid() && shown.databases == Upsert(map[], rows, DbLabel)
      ensures DatabasesShow(rows)
    {
      UpsertShowsRows(rows, DbLabel, "numbackends");
      UpsertShowsRows(rows, DbLabel, "xact_commit");
      UpsertShowsRows(rows, DbLabel, "xact_rollback");
      UpsertShowsRows(rows, DbLabel, "blks_hit");
      UpsertShowsRows(rows, DbLabel, "blks_read");
      UpsertShowsRows(rows, DbLabel, "size_bytes");
    }

    lemma TableVectorsShow(rows: seq<Row>)
      requires TablesValid() && shown.tables == Upsert(map[], rows, TableLabel)
      ensures TablesShow(rows)
    {
      UpsertShowsRows(rows, TableLabel, "seq_scan");
      UpsertShowsRows(rows, TableLabel, "idx_scan");
      UpsertShowsRows(rows, TableLabel, "n_live_tup");
      UpsertShowsRows(rows, TableLabel, "n_dead_tup");
    }
  }

  predicate NoneCancelled(rounds: seq<Round>) {
    rounds == [] || (NoneCancelled(rounds[..|rounds| - 1]) && OutcomeOf(rounds[|rounds| - 1]) != Cancelled)
  }

  /** After `n` collects the list is at its end, or the last of them stopped the task. */
  ghost predicate EndsHere(t: Task, rounds: seq<Round>, n: nat)
    requires n <= |rounds|
  {
    if RunFrom(t, EventsOf(rounds[..n])).at.AtTick? then n == |rounds|
    else n > 0 && RunFrom(t, EventsOf(rounds[..n])).at.Stopped? && RunFrom(t, EventsOf(rounds[..n - 1])).at.AtTick?
  }

  /** The first `n` collects were begun: all of them, or up to the first that is cancelled. */
  ghost predicate Begun(rounds: seq<Round>, n: nat) {
    && n <= |rounds| && (n > 0 ==> NoneCancelled(rounds[..n - 1]))
    && (n < |rounds| ==> n > 0 && OutcomeOf(rounds[n - 1]) == Cancelled)
  }

  lemma DbColumns(m: map<string, Row>, db: string, row: Row)
    ensures Column(m[db := row], "numbackends") == Column(m, "numbackends")[db := GetI64(row, "numbackends")]
    ensures Column(m[db := row], "xact_commit") == Column(m, "xact_commit")[db := GetI64(row, "xact_commit")]
    ensures Column(m[db := row], "xact_rollback") == Column(m, "xact_rollback")[db := GetI64(row, "xact_rollback")]
    ensures Column(m[db := row], "blks_hit") == Column(m, "blks_hit")[db := GetI64(row, "blks_hit")]
    ensures Column(m[db := row], "blks_read") == Column(m, "blks_read")[db := GetI64(row, "blks_read")]
    ensures Column(m[db := row], "size_bytes") == Column(m, "size_bytes")[db := GetI64(row, "size_bytes")]
  {
    ColumnUpsert(m, db, row, "numbackends");
    ColumnUpsert(m, db, row, "xact_commit");
    ColumnUpsert(m, db, row, "xact_rollback");
    ColumnUpsert(m, db, row, "blks_hit");
    ColumnUpsert(m, db, row, "blks_read");
    ColumnUpsert(m, db, row, "size_bytes");
  }

  lemma TableColumns(m: map<(string, string), Row>, table: (string, string), row: Row)
    ensures Column(m[table := row], "seq_scan") == Column(m, "seq_scan")[table := GetI64(row, "seq_scan")]
    ensures Column(m[table := row], "idx_scan") == Column(m, "idx_scan")[table := GetI64(row, "idx_scan")]
    ensures Column(m[table := row], "n_live_tup") == Column(m, "n_live_tup")[table := GetI64(row, "n_live_tup")]
    ensures Column(m[table := row], "n_dead_tup") == Column(m, "n_dead_tup")[table := GetI64(row, "n_dead_tup")]
  {
    ColumnUpsert(m, table, row, "seq_scan");
    ColumnUpsert(m, table, row, "idx_scan");
    ColumnUpsert(m, table, row, "n_live_tup");
    ColumnUpsert(m, table, row, "n_dead_tup");
  }

  lemma StagesUnfold(s: Shown, r: Round)
    ensures var s1 := Apply(s, Pool(r.status));
            ApplyAll(s, StagesOf(r)) ==
            if !r.db.Rows? then s1
            else if !r.tables.Rows? then Apply(s1, Databases(r.db.rows))
            else if !r.locks.Rows? then Apply(Apply(s1, Databases(r.db.rows)), Tables(r.tables.rows))
            else Apply(Apply(Apply(s1, Databases(r.db.rows)), Tables(r.tables.rows)), Locks(r.locks.rows))
  {
    var p := [Pool(r.status)];
    ApplyAllOne(s, Pool(r.status));
    if r.db.Rows? {
      var d := [Pool(r.status), Databases(r.db.rows)];
      ApplyAllAppend(s, p, Databases(r.db.rows));
      assert p + [Databases(r.db.rows)] == d;
      if r.tables.Rows? {
        var t := [Pool(r.status), Databases(r.db.rows), Tables(r.tables.rows)];
        ApplyAllAppend(s, d, Tables(r.tables.rows));
        assert d + [Tables(r.tables.rows)] == t;
        if r.locks.Rows? {
          ApplyAllAppend(s, t, Locks(r.locks.rows));
          assert t + [Locks(r.locks.rows)] == StagesOf(r);
        }
      }
    }
  }

  /** What a collect leaves: the pool status however it ends, and the rows of each query that was answered
      after all before it were; it succeeds if all three were, and is cancelled by an abort at
      the first that was not. */
  lemma CollectEffect(s: Shown, r: Round)
    ensures var u := ApplyAll(s, StagesOf(r));
            && u.active == r.status.inUse && u.idle == r.status.available && u.max == r.status.maxSize
            && u.databases == (if r.db.Rows? then Upsert(s.databases, r.db.rows, DbLabel) else s.databases)
            && u.tables == (if r.db.Rows? && r.tables.Rows? then Upsert(s.tables, r.tables.rows, TableLabel) else s.tables)
            && u.locks == (if r.db.Rows? && r.tables.Rows? && r.locks.Rows?
                           then Upsert(s.locks, r.locks.rows, LockLabel) else s.locks)
    ensures OutcomeOf(r) == Done <==> r.db.Rows? && r.tables.Rows? && r.locks.Rows?
    ensures OutcomeOf(r) == Cancelled <==>
            || r.db.AbortedHere? || (r.db.Rows? && r.tables.AbortedHere?)
            || (r.db.Rows? && r.tables.Rows? && r.locks.AbortedHere?)
  {
    StagesUnfold(s, r);
  }

  lemma ApplyAllOne(s: Shown, stage: Stage)
    ensures ApplyAll(s, [stage]) == Apply(s, stage)
  {
    assert [stage][..0] == [];
  }

  lemma ApplyAllAppend(s: Shown, stages: seq<Stage>, stage: Stage)
    ensures ApplyAll(s, stages + [stage]) == Apply(ApplyAll(s, stages), stage)
  {
    assert (stages + [stage])[..|stages|] == stages;
  }

  // ---------- the collecting task ----------

  /** Where the task waits: for its ticker, or for one of the three queries. */
  datatype Await = AtTick | AtDatabases | AtTables | AtLocks | Stopped

  datatype Event = Tick(status: PoolStatus) | Answer(rows: seq<Row>) | QueryFails | Abort

  /** `log` lists, collect by collect, the stages carried out; `finished` and `failed` count the
      collects that returned. */
  datatype Task = Task(at: Await, shown: Shown, log: seq<seq<Stage>>, finished: nat, failed: nat)

  const NEW_TASK := Task(AtTick, NOTHING, [], 0, 0)

  function Carry(t: Task, stage: Stage, at: Await): Task
    requires t.log != []
  {
    var n := |t.log| - 1;
    t.(at := at, shown := Apply(t.shown, stage), log := t.log[n := t.log[n] + [stage]])
  }

  /** One step of the task between awaits; an event the task is not waiting for changes nothing. */
  function Next(t: Task, e: Event): Task {
    match e
    case Tick(status) =>
      if t.at.AtTick?
      then t.(at := AtDatabases, shown := Apply(t.shown, Pool(status)), log := t.log + [[Pool(status)]])
      else t
    case Answer(rows) =>
      if t.log == [] then t
      else if t.at.AtDatabases? then Carry(t, Databases(rows), AtTables)
      else if t.at.AtTables? then Carry(t, Tables(rows), AtLocks)
      else if t.at.AtLocks? then Carry(t, Locks(rows), AtTick).(finished := t.finished + 1)
      else t
    case QueryFails =>
      if t.at.AtTick? || t.at.Stopped? then t else t.(at := AtTick, failed := t.failed + 1)
    case Abort => t.(at := Stopped)
  }

  function RunFrom(t: Task, events: seq<Event>): Task {
    if events == [] then t else Next(RunFrom(t, events[..|events| - 1]), events[|events| - 1])
  }

  function Run(events: seq<Event>): Task {
    RunFrom(NEW_TASK, events)
  }

  lemma RunAppend(t: Task, events: seq<Event>, e: Event)
    ensures RunFrom(t, events + [e]) == Next(RunFrom(t, events), e)
  {
    assert (events + [e])[..|events|] == events;
  }

  lemma {:induction false} RunConcat(t: Task, a: seq<Event>, b: seq<Event>)
    ensures RunFrom(t, a + b) == RunFrom(RunFrom(t, a), b)
  {
    if b == [] {
      assert a + b == a;
    } else {
      assert (a + b)[..|a + b| - 1] == a + b[..|b| - 1];
      RunConcat(t, a, b[..|b| - 1]);
    }
  }

  function Rank(stage: Stage): nat {
    match stage
    case Pool(_) => 0
    case Databases(_) => 1
    case Tables(_) => 2
    case Locks(_) => 3
  }

  /** A nonempty prefix of pool, databases, tables, locks. */
  ghost predicate StagePrefix(stages: seq<Stage>) {
    1 <= |stages| <= 4 && forall i :: 0 <= i < |stages| ==> Rank(stages[i]) == i
  }

  function Flatten(log: seq<seq<Stage>>): seq<Stage> {
    if log == [] then [] else Flatten(log[..|log| - 1]) + log[|log| - 1]
  }

  function Complete(log: seq<seq<Stage>>): nat {
    if log == [] then 0 else Complete(log[..|log| - 1]) + if |log[|log| - 1]| == 4 then 1 else 0
  }

  ghost predicate Inv(t: Task) {
    && (forall k :: 0 <= k < |t.log| ==> StagePrefix(t.log[k]))
    && t.shown == ApplyAll(NOTHING, Flatten(t.log))
    && t.finished == Complete(t.log)
    && (t.at.AtDatabases? ==> t.log != [] && |t.log[|t.log| - 1]| == 1)
    && (t.at.AtTables? ==> t.log != [] && |t.log[|t.log| - 1]| == 2)
    && (t.at.AtLocks? ==> t.log != [] && |t.log[|t.log| - 1]| == 3)
    && InProgress(t.at) <= |t.log| - t.finished - t.failed <= 1
    && (t.at.AtTick? ==> |t.log| == t.finished + t.failed)
  }

  function InProgress(at: Await): nat {
    if at.AtDatabases? || at.AtTables? || at.AtLocks? then 1 else 0
  }

  lemma FlattenReplaceLast(log: seq<seq<Stage>>, stage: Stage)
    requires log != []
    ensures var n := |log| - 1; Flatten(log[n := log[n] + [stage]]) == Flatten(log) + [stage]
    ensures var n := |log| - 1;
            Complete(log[n := log[n] + [stage]]) ==
            Complete(log[..n]) + if |log[n]| == 3 then 1 else 0
  {
    var n := |log| - 1;
    assert log[n := log[n] + [stage]][..n] == log[..n];
  }

  lemma TickKeepsInv(t: Task, status: PoolStatus)
    requires Inv(t) && t.at.AtTick?
    ensures Inv(Next(t, Tick(status)))
  {
    var u := Next(t, Tick(status));
    assert u.log[..|t.log|] == t.log;
    ApplyAllAppend(NOTHING, Flatten(t.log), Pool(status));
  }

  lemma CarryKeepsPrefixes(t: Task, stage: Stage, at: Await)
    requires Inv(t) && t.log != []
    requires Rank(stage) == |t.log[|t.log| - 1]| < 4
    ensures var u := Carry(t, stage, at);
            && (forall k :: 0 <= k < |u.log| ==> StagePrefix(u.log[k]))
            && u.shown == ApplyAll(NOTHING, Flatten(u.log))
            && |u.log| == |t.log| && |u.log[|u.log| - 1]| == Rank(stage) + 1
            && Complete(u.log) == t.finished + if Rank(stage) == 3 then 1 else 0
  {
    var n := |t.log| - 1;
    ExtendPrefix(t.log[n], stage);
    FlattenReplaceLast(t.log, stage);
    ApplyAllAppend(NOTHING, Flatten(t.log), stage);
  }

  lemma ExtendPrefix(stages: seq<Stage>, stage: Stage)
    requires StagePrefix(stages) && Rank(stage) == |stages| < 4
    ensures StagePrefix(stages + [stage])
  {
  }

  lemma AnswerKeepsInv(t: Task, rows: seq<Row>)
    requires Inv(t)
    ensures Inv(Next(t, Answer(rows)))
  {
    match t.at {
      case AtDatabases => CarryKeepsPrefixes(t, Databases(rows), AtTables);
      case AtTables => CarryKeepsPrefixes(t, Tables(rows), AtLocks);
      case AtLocks => CarryKeepsPrefixes(t, Locks(rows), AtTick);
      case _ =>
    }
  }

  lemma NextKeepsInv(t: Task, e: Event)
    requires Inv(t)
    ensures Inv(Next(t, e))
  {
    match e
    case Tick(status) =>
      if t.at.AtTick? {
        TickKeepsInv(t, status);
      }
    case Answer(rows) => AnswerKeepsInv(t, rows);
    case QueryFails =>
    case Abort =>
  }

  lemma {:induction false} RunKeepsInv(events: seq<Event>)
    ensures Inv(Run(events))
  {
    if events != [] {
      RunKeepsInv(events[..|events| - 1]);
      NextKeepsInv(Run(events[..|events| - 1]), events[|events| - 1]);
    }
  }

  /** Stage atomicity over every run of replies, failures and aborts: the gauges are the whole stages
      of the log, every collect did a prefix of its four stages, a collect returned
      successfully exactly when it did all four, and only the last one can be under way, having done
      as many stages as the await it waits at says. */
  lemma {:induction false} StageAtomicity(events: seq<Event>)
    ensures var t := Run(events);
            && t.shown == ApplyAll(NOTHING, Flatten(t.log))
            && (forall k :: 0 <= k < |t.log| ==> StagePrefix(t.log[k]))
            && t.finished == Complete(t.log)
            && (InProgress(t.at) == 1 ==>
                  && |t.log| == t.finished + t.failed + 1
                  && |t.log[|t.log| - 1]| == (if t.at.AtDatabases? then 1 else if t.at.AtTables? then 2 else 3))
            && (t.at.AtTick? ==> |t.log| == t.finished + t.failed)
  {
    RunKeepsInv(events);
  }

  function CountRank(stages: seq<Stage>, r: nat): nat {
    if stages == [] then 0
    else CountRank(stages[..|stages| - 1], r) + if Rank(stages[|stages| - 1]) == r then 1 else 0
  }

  lemma {:induction false} CountConcat(a: seq<Stage>, b: seq<Stage>, r: nat)
    ensures CountRank(a + b, r) == CountRank(a, r) + CountRank(b, r)
  {
    if b == [] {
      assert a + b == a;
    } else {
      assert (a + b)[..|a + b| - 1] == a + b[..|b| - 1];
      CountConcat(a, b[..|b| - 1], r);
    }
  }

  lemma {:induction false} CountPrefix(stages: seq<Stage>, r: nat)
    requires forall i :: 0 <= i < |stages| ==> Rank(stages[i]) == i
    ensures CountRank(stages, r) == if r < |stages| then 1 else 0
  {
    if stages != [] {
      CountPrefix(stages[..|stages| - 1], r);
    }
  }

  lemma {:induction false} CountLog(log: seq<seq<Stage>>, r: nat)
    requires r < 3
    requires forall k :: 0 <= k < |log| ==> StagePrefix(log[k])
    ensures CountRank(Flatten(log), 0) == |log| && CountRank(Flatten(log), 3) == Complete(log)
    ensures CountRank(Flatten(log), r + 1) <= CountRank(Flatten(log), r)
  {
    if log != [] {
      var init, last := log[..|log| - 1], log[|log| - 1];
      CountLog(init, r);
      CountConcat(Flatten(init), last, 0);
      CountConcat(Flatten(init), last, 3);
      CountConcat(Flatten(init), last, r);
      CountConcat(Flatten(init), last, r + 1);
      CountPrefix(last, 0);
      CountPrefix(last, 3);
      CountPrefix(last, r);
      CountPrefix(last, r + 1);
    }
  }

  /** No stage is ever applied more often than the one before it, and the lock stage exactly as
      often as collects succeeded; collects started are those that returned and at most one
      more, which is running or was aborted. */
  lemma StageCounts(events: seq<Event>, r: nat)
    requires r < 3
    ensures var t := Run(events);
            var all := Flatten(t.log);
            && CountRank(all, r + 1) <= CountRank(all, r)
            && CountRank(all, 0) == |t.log| && CountRank(all, 3) == t.finished
            && t.finished + t.failed <= |t.log| <= t.finished + t.failed + 1
  {
    RunKeepsInv(events);
    CountLog(Run(events).log, r);
  }

  // ---------- what the vectors show ----------

  function RowsOf(stages: seq<Stage>, r: nat): seq<Row>
    requires r > 0
  {
    if stages == [] then []
    else
      var last := stages[|stages| - 1];
      RowsOf(stages[..|stages| - 1], r) + if Rank(last) == r then last.rows else []
  }

  lemma {:induction false} UpsertConcat<L>(m: map<L, Row>, a: seq<Row>, b: seq<Row>, labelOf: Row -> L)
    ensures Upsert(m, a + b, labelOf) == Upsert(Upsert(m, a, labelOf), b, labelOf)
  {
    if b == [] {
      assert a + b == a;
    } else {
      assert (a + b)[..|a + b| - 1] == a + b[..|b| - 1];
      UpsertConcat(m, a, b[..|b| - 1], labelOf);
    }
  }

  lemma RowsAppend(stages: seq<Stage>, stage: Stage, r: nat)
    requires r > 0
    ensures RowsOf(stages + [stage], r) == RowsOf(stages, r) + if Rank(stage) == r then stage.rows else []
  {
    assert (stages + [stage])[..|stages|] == stages;
  }

  /** Whether and how one stage moves the map behind its vectors. */
  lemma UpsertStage<L>(stages: seq<Stage>, stage: Stage, r: nat, labelOf: Row -> L)
    requires r > 0
    ensures var m := Upsert(map[], RowsOf(stages, r), labelOf);
            Upsert(map[], RowsOf(stages + [stage], r), labelOf) ==
            if Rank(stage) == r then Upsert(m, stage.rows, labelOf) else m
  {
    RowsAppend(stages, stage, r);
    if Rank(stage) == r {
      UpsertConcat(map[], RowsOf(stages, r), stage.rows, labelOf);
    } else {
      assert RowsOf(stages, r) + [] == RowsOf(stages, r);
    }
  }

  lemma {:induction false} ShownIsUpsert(stages: seq<Stage>)
    ensures var s := ApplyAll(NOTHING, stages);
            && s.databases == Upsert(map[], RowsOf(stages, 1), DbLabel)
            && s.tables == Upsert(map[], RowsOf(stages, 2), TableLabel)
            && s.locks == Upsert(map[], RowsOf(stages, 3), LockLabel)
  {
    if stages != [] {
      var init, last := stages[..|stages| - 1], stages[|stages| - 1];
      assert stages == init + [last];
      ShownIsUpsert(init);
      UpsertStage(init, last, 1, DbLabel);
      UpsertStage(init, last, 2, TableLabel);
      UpsertStage(init, last, 3, LockLabel);
    }
  }

  /** The row at `i` is the last one with label `l`. */
  ghost predicate LastWithLabel<L>(rows: seq<Row>, i: nat, labelOf: Row -> L, l: L) {
    && i < |rows| && labelOf(rows[i]) == l
    && forall j :: i < j < |rows| ==> labelOf(rows[j]) != l
  }

  ghost predicate HasLabel<L>(rows: seq<Row>, labelOf: Row -> L, l: L) {
    exists i :: 0 <= i < |rows| && labelOf(rows[i]) == l
  }

  /** The vector has exactly the labels of the rows, and shows for each the column of its last row. */
  ghost predicate ShowsRows<L(!new)>(column: map<L, i64>, rows: seq<Row>, labelOf: Row -> L, key: string) {
    && (forall l :: l in column <==> HasLabel(rows, labelOf, l))
    && (forall l, i: nat :: LastWithLabel(rows, i, labelOf, l) ==>
          l in column && column[l] == GetI64(rows[i], key))
  }

  lemma {:induction false} UpsertShowsLast<L>(rows: seq<Row>, labelOf: Row -> L, l: L)
    ensures l in Upsert(map[], rows, labelOf) <==> HasLabel(rows, labelOf, l)
    ensures forall i: nat :: LastWithLabel(rows, i, labelOf, l) ==>
              l in Upsert(map[], rows, labelOf) && Upsert(map[], rows, labelOf)[l] == rows[i]
  {
    if rows != [] {
      var n := |rows| - 1;
      UpsertShowsLast(rows[..n], labelOf, l);
      assert forall i :: 0 <= i < n ==> rows[..n][i] == rows[i];
      if labelOf(rows[n]) != l {
        OtherLabelBefore(rows, labelOf, l);
      }
    }
  }

  lemma OtherLabelBefore<L>(rows: seq<Row>, labelOf: Row -> L, l: L)
    requires rows != [] && labelOf(rows[|rows| - 1]) != l
    ensures HasLabel(rows, labelOf, l) <==> HasLabel(rows[..|rows| - 1], labelOf, l)
    ensures forall i: nat :: LastWithLabel(rows, i, labelOf, l) ==>
              i < |rows| - 1 && LastWithLabel(rows[..|rows| - 1], i, labelOf, l)
  {
    var init := rows[..|rows| - 1];
    if i :| 0 <= i < |rows| && labelOf(rows[i]) == l {
      assert init[i] == rows[i];
    }
    if i :| 0 <= i < |init| && labelOf(init[i]) == l {
      assert rows[i] == init[i];
    }
  }

  lemma UpsertShowsRows<L(!new)>(rows: seq<Row>, labelOf: Row -> L, key: string)
    ensures ShowsRows(Column(Upsert(map[], rows, labelOf), key), rows, labelOf, key)
  {
    var m := Upsert(map[], rows, labelOf);
    forall l
      ensures l in Column(m, key) <==> HasLabel(rows, labelOf, l)
      ensures forall i: nat :: LastWithLabel(rows, i, labelOf, l) ==>
                l in Column(m, key) && Column(m, key)[l] == GetI64(rows[i], key)
    {
      UpsertShowsLast(rows, labelOf, l);
    }
  }

  lemma TaskShows(events: seq<Event>)
    ensures Run(events).shown == ApplyAll(NOTHING, Flatten(Run(events).log))
  {
    RunKeepsInv(events);
  }

  /** After any run, a database label exists exactly when some applied database row carries it,
      and each column of the rows behind the six vectors is that of the last such row. */
  lemma DatabaseVectors(events: seq<Event>, key: string)
    ensures ShowsRows(Column(Run(events).shown.databases, key), RowsOf(Flatten(Run(events).log), 1), DbLabel, key)
  {
    TaskShows(events);
    ShownIsUpsert(Flatten(Run(events).log));
    UpsertShowsRows(RowsOf(Flatten(Run(events).log), 1), DbLabel, key);
  }

  lemma TableVectors(events: seq<Event>, key: string)
    ensures ShowsRows(Column(Run(events).shown.tables, key), RowsOf(Flatten(Run(events).log), 2), TableLabel, key)
  {
    TaskShows(events);
    ShownIsUpsert(Flatten(Run(events).log));
    UpsertShowsRows(RowsOf(Flatten(Run(events).log), 2), TableLabel, key);
  }

  lemma LockVector(events: seq<Event>)
    ensures ShowsRows(Column(Run(events).shown.locks, "cnt"), RowsOf(Flatten(Run(events).log), 3), LockLabel, "cnt")
  {
    TaskShows(events);
    ShownIsUpsert(Flatten(Run(events).log));
    UpsertShowsRows(RowsOf(Flatten(Run(events).log), 3), LockLabel, "cnt");
  }

  /** What a gauge shows of a cell: an integer that fits as it is and a larger one saturated, a float as
      its whole part with its sign, saturated, and anything else or nothing as 0. */
  ghost predicate ShowsCell(row: Row, key: string, shown: int) {
    if key !in row then shown == 0
    else
      match row[key]
      case Int(n) =>
        && (-9223372036854775808 <= n <= 9223372036854775807 ==> shown == n)
        && (n > 9223372036854775807 ==> shown == 9223372036854775807)
      case Float(x) =>
        && (0.0 <= x < 9223372036854775808.0 ==> shown as real <= x < shown as real + 1.0)
        && (-9223372036854775808.0 <= x < 0.0 ==> shown as real - 1.0 < x <= shown as real)
        && (x >= 9223372036854775808.0 ==> shown == 9223372036854775807)
        && (x < -9223372036854775808.0 ==> shown == -9223372036854775808)
      case _ => shown == 0
  }

  /** The text in a cell; a cell that is missing or holds no text reads as "". */
  ghost predicate Reads(row: Row, key: string, text: string) {
    if key in row && row[key].Str? then row[key] == Str(text) else text == ""
  }

  lemma CellShown<L(!new)>(column: map<L, i64>, rows: seq<Row>, labelOf: Row -> L, key: string, l: L, i: nat)
    requires ShowsRows(column, rows, labelOf, key) && LastWithLabel(rows, i, labelOf, l)
    ensures l in column && ShowsCell(rows[i], key, column[l])
  {
    assert column[l] == GetI64(rows[i], key);
  }

  lemma LabelsRead(row: Row, name: string, schema: string, table: string)
    ensures DbLabel(row) == name <==> Reads(row, "datname", name)
    ensures LockLabel(row) == name <==> Reads(row, "mode", name)
    ensures TableLabel(row) == (schema, table) <==> Reads(row, "schemaname", schema) && Reads(row, "relname", table)
  {
  }

  /** From rows to gauges, after any run: the last applied row that names the database decides what the
      vectors show for it, column by column. */
  lemma DatabaseCell(events: seq<Event>, key: string, name: string, i: nat)
    requires var rows := RowsOf(Flatten(Run(events).log), 1);
             && i < |rows| && Reads(rows[i], "datname", name)
             && forall j :: i < j < |rows| ==> !Reads(rows[j], "datname", name)
    ensures var rows, column := RowsOf(Flatten(Run(events).log), 1), Column(Run(events).shown.databases, key);
            name in column && ShowsCell(rows[i], key, column[name])
  {
    var rows := RowsOf(Flatten(Run(events).log), 1);
    forall j | 0 <= j < |rows| ensures DbLabel(rows[j]) == name <==> Reads(rows[j], "datname", name) {
      LabelsRead(rows[j], name, "", "");
    }
    DatabaseVectors(events, key);
    CellShown(Column(Run(events).shown.databases, key), rows, DbLabel, key, name, i);
  }

  /** The same for a table, named by its schema and then its own name. */
  lemma TableCell(events: seq<Event>, key: string, schema: string, table: string, i: nat)
    requires var rows := RowsOf(Flatten(Run(events).log), 2);
             && i < |rows| && Reads(rows[i], "schemaname", schema) && Reads(rows[i], "relname", table)
             && forall j :: i < j < |rows| ==> !(Reads(rows[j], "schemaname", schema) && Reads(rows[j], "relname", table))
    ensures var rows, column := RowsOf(Flatten(Run(events).log), 2), Column(Run(events).shown.tables, key);
            (schema, table) in column && ShowsCell(rows[i], key, column[(schema, table)])
  {
    var rows := RowsOf(Flatten(Run(events).log), 2);
    forall j | 0 <= j < |rows|
      ensures TableLabel(rows[j]) == (schema, table) <==>
              Reads(rows[j], "schemaname", schema) && Reads(rows[j], "relname", table)
    {
      LabelsRead(rows[j], "", schema, table);
    }
    TableVectors(events, key);
    CellShown(Column(Run(events).shown.tables, key), rows, TableLabel, key, (schema, table), i);
  }

  /** The same for the number of locks of a mode. */
  lemma LockCell(events: seq<Event>, mode: string, i: nat)
    requires var rows := RowsOf(Flatten(Run(events).log), 3);
             && i < |rows| && Reads(rows[i], "mode", mode)
             && forall j :: i < j < |rows| ==> !Reads(rows[j], "mode", mode)
    ensures var rows, column := RowsOf(Flatten(Run(events).log), 3), Column(Run(events).shown.locks, "cnt");
            mode in column && ShowsCell(rows[i], "cnt", column[mode])
  {
    var rows := RowsOf(Flatten(Run(events).log), 3);
    forall j | 0 <= j < |rows| ensures LockLabel(rows[j]) == mode <==> Reads(rows[j], "mode", mode) {
      LabelsRead(rows[j], mode, "", "");
    }
    LockVector(events);
    CellShown(Column(Run(events).shown.locks, "cnt"), rows, LockLabel, "cnt", mode, i);
  }

  /** The pool status of the last tick that found the task at its ticker. */
  function LastTick(events: seq<Event>): Option<PoolStatus> {
    if events == [] then None
    else
      var init, last := events[..|events| - 1], events[|events| - 1];
      if last.Tick? && Run(init).at.AtTick? then Some(last.status) else LastTick(init)
  }

  /** After any run, whatever became of its collects, the pool gauges are those of the last tick. */
  lemma {:induction false} PoolGauges(events: seq<Event>)
    ensures var s, last := Run(events).shown, LastTick(events);
            match last
            case None => s.active == 0 && s.idle == 0 && s.max == 0
            case Some(p) => s.active == p.inUse && s.idle == p.available && s.max == p.maxSize
  {
    if events != [] {
      PoolGauges(events[..|events| - 1]);
      NextPool(Run(events[..|events| - 1]), events[|events| - 1]);
    }
  }

  lemma NextPool(t: Task, e: Event)
    ensures var s, u := t.shown, Next(t, e).shown;
            if e.Tick? && t.at.AtTick?
            then u.active == e.status.inUse && u.idle == e.status.available && u.max == e.status.maxSize
            else u.active == s.active && u.idle == s.idle && u.max == s.max
  {
  }

  // ---------- one collect is a run of the task ----------

  function ReplyEvent(r: Reply): Event {
    match r
    case Rows(rows) => Answer(rows)
    case QueryError => QueryFails
    case AbortedHere => Abort
  }

  /** The events of one collect: a tick, and an answer for each query made. */
  function RoundEvents(r: Round): seq<Event> {
    if !r.db.Rows? then [Tick(r.status), ReplyEvent(r.db)]
    else if !r.tables.Rows? then [Tick(r.status), Answer(r.db.rows), ReplyEvent(r.tables)]
    else [Tick(r.status), Answer(r.db.rows), Answer(r.tables.rows), ReplyEvent(r.locks)]
  }

  function EventsOf(rounds: seq<Round>): seq<Event> {
    if rounds == [] then [] else EventsOf(rounds[..|rounds| - 1]) + RoundEvents(rounds[|rounds| - 1])
  }

  lemma RunTwo(t: Task, a: Event, b: Event)
    ensures RunFrom(t, [a, b]) == Next(Next(t, a), b)
  {
    RunAppend(t, [], a);
    RunAppend(t, [a], b);
    assert [] + [a] == [a] && [a] + [b] == [a, b];
  }

  lemma RunThree(t: Task, a: Event, b: Event, c: Event)
    ensures RunFrom(t, [a, b, c]) == Next(Next(Next(t, a), b), c)
  {
    RunTwo(t, a, b);
    RunAppend(t, [a, b], c);
    assert [a, b] + [c] == [a, b, c];
  }

  lemma RunFour(t: Task, a: Event, b: Event, c: Event, d: Event)
    ensures RunFrom(t, [a, b, c, d]) == Next(Next(Next(Next(t, a), b), c), d)
  {
    RunThree(t, a, b, c);
    RunAppend(t, [a, b, c], d);
    assert [a, b, c] + [d] == [a, b, c, d];
  }

  /** A task under way: it has logged `stages` for the current collect and shows them. */
  ghost predicate UnderWay(t: Task, before: Task, stages: seq<Stage>, at: Await) {
    && t.at == at && t.log == before.log + [stages] && t.shown == ApplyAll(before.shown, stages)
    && t.finished == before.finished && t.failed == before.failed
  }

  lemma TickStarts(t: Task, status: PoolStatus)
    requires t.at.AtTick?
    ensures UnderWay(Next(t, Tick(status)), t, [Pool(status)], AtDatabases)
  {
    ApplyAllOne(t.shown, Pool(status));
  }

  lemma CarryOn(t: Task, before: Task, stages: seq<Stage>, stage: Stage, at: Await, next: Await)
    requires UnderWay(t, before, stages, at)
    ensures UnderWay(Carry(t, stage, next), before, stages + [stage], next)
  {
    ApplyAllAppend(before.shown, stages, stage);
  }

  lemma AfterDatabases(t: Task, r: Round)
    requires t.at.AtTick? && r.db.Rows?
    ensures UnderWay(Next(Next(t, Tick(r.status)), Answer(r.db.rows)), t, [Pool(r.status), Databases(r.db.rows)], AtTables)
  {
    TickStarts(t, r.status);
    CarryOn(Next(t, Tick(r.status)), t, [Pool(r.status)], Databases(r.db.rows), AtDatabases, AtTables);
    assert [Pool(r.status)] + [Databases(r.db.rows)] == [Pool(r.status), Databases(r.db.rows)];
  }

  lemma AfterTables(t: Task, r: Round)
    requires t.at.AtTick? && r.db.Rows? && r.tables.Rows?
    ensures UnderWay(Next(Next(Next(t, Tick(r.status)), Answer(r.db.rows)), Answer(r.tables.rows)), t,
                     [Pool(r.status), Databases(r.db.rows), Tables(r.tables.rows)], AtLocks)
  {
    AfterDatabases(t, r);
    var stages := [Pool(r.status), Databases(r.db.rows)];
    CarryOn(Next(Next(t, Tick(r.status)), Answer(r.db.rows)), t, stages, Tables(r.tables.rows), AtTables, AtLocks);
    assert stages + [Tables(r.tables.rows)] == [Pool(r.status), Databases(r.db.rows), Tables(r.tables.rows)];
  }

  lemma QueryEnds(t: Task, before: Task, stages: seq<Stage>, at: Await, reply: Reply)
    requires UnderWay(t, before, stages, at) && !at.AtTick? && !at.Stopped? && !reply.Rows?
    ensures var u := Next(t, ReplyEvent(reply));
            if reply.QueryError? then u == t.(at := AtTick, failed := t.failed + 1) else u == t.(at := Stopped)
  {
  }

  /** The events of one collect have the effect the `Collect` method states, and leave the task at its
      ticker unless one of them aborted it. */
  lemma CollectIsARun(t: Task, r: Round)
    requires t.at.AtTick?
    ensures var u := RunFrom(t, RoundEvents(r));
            && u.shown == ApplyAll(t.shown, StagesOf(r)) && u.log == t.log + [StagesOf(r)]
            && u.at == (if OutcomeOf(r) == Cancelled then Stopped else AtTick)
            && u.finished == t.finished + (if OutcomeOf(r) == Done then 1 else 0)
            && u.failed == t.failed + (if OutcomeOf(r) == Failed then 1 else 0)
  {
    var t1 := Next(t, Tick(r.status));
    TickStarts(t, r.status);
    if !r.db.Rows? {
      RunTwo(t, Tick(r.status), ReplyEvent(r.db));
      QueryEnds(t1, t, StagesOf(r), AtDatabases, r.db);
    } else if !r.tables.Rows? {
      AfterDatabases(t, r);
      RunThree(t, Tick(r.status), Answer(r.db.rows), ReplyEvent(r.tables));
      QueryEnds(Next(t1, Answer(r.db.rows)), t, StagesOf(r), AtTables, r.tables);
    } else {
      AfterTables(t, r);
      RunFour(t, Tick(r.status), Answer(r.db.rows), Answer(r.tables.rows), ReplyEvent(r.locks));
      var t3 := Next(Next(t1, Answer(r.db.rows)), Answer(r.tables.rows));
      if r.locks.Rows? {
        var stages := [Pool(r.status), Databases(r.db.rows), Tables(r.tables.rows)];
        CarryOn(t3, t, stages, Locks(r.locks.rows), AtLocks, AtTick);
        assert stages + [Locks(r.locks.rows)] == StagesOf(r);
      } else {
        QueryEnds(t3, t, StagesOf(r), AtLocks, r.locks);
      }
    }
  }

  lemma OneMoreRound(t: Task, rounds: seq<Round>, n: nat)
    requires n < |rounds| && RunFrom(t, EventsOf(rounds[..n])).at.AtTick?
    ensures var u, v := RunFrom(t, EventsOf(rounds[..n])), RunFrom(t, EventsOf(rounds[..n + 1]));
            && v.shown == ApplyAll(u.shown, StagesOf(rounds[n])) && v.log == u.log + [StagesOf(rounds[n])]
            && v.at == (if OutcomeOf(rounds[n]) == Cancelled then Stopped else AtTick)
  {
    RoundsAppend(t, rounds, n);
    CollectIsARun(RunFrom(t, EventsOf(rounds[..n])), rounds[n]);
  }

  lemma RoundsAppend(t: Task, rounds: seq<Round>, n: nat)
    requires n < |rounds|
    ensures RunFrom(t, EventsOf(rounds[..n + 1])) == RunFrom(RunFrom(t, EventsOf(rounds[..n])), RoundEvents(rounds[n]))
  {
    assert rounds[..n + 1] == rounds[..n] + [rounds[n]];
    AppendRound(t, rounds[..n], rounds[n]);
  }

  lemma AppendRound(t: Task, rounds: seq<Round>, r: Round)
    ensures RunFrom(t, EventsOf(rounds + [r])) == RunFrom(RunFrom(t, EventsOf(rounds)), RoundEvents(r))
  {
    assert (rounds + [r])[..|rounds|] == rounds;
    RunConcat(t, EventsOf(rounds), RoundEvents(r));
  }

  lemma {:induction false} StoppedStays(t: Task, events: seq<Event>)
    requires t.at.Stopped?
    ensures RunFrom(t, events) == t
  {
    if events != [] {
      StoppedStays(t, events[..|events| - 1]);
    }
  }

  /** Where the list of collects ends or one was cancelled, `Begun` says how many were begun, and the rest
      of the list changes nothing. */
  lemma {:induction false} BegunAll(t: Task, rounds: seq<Round>, n: nat)
    requires t.at.AtTick? && n <= |rounds|
    requires EndsHere(t, rounds, n)
    ensures RunFrom(t, EventsOf(rounds)) == RunFrom(t, EventsOf(rounds[..n])) && Begun(rounds, n)
  {
    TickingOrStopped(rounds[..n], t);
    if n > 0 {
      TickingOrStopped(rounds[..n - 1], t);
      assert rounds[..n][..n - 1] == rounds[..n - 1];
    }
    if n == |rounds| {
      assert rounds[..n] == rounds;
    } else {
      StoppedForGood(t, rounds, n);
    }
  }

  /** Between its collects the task is at its ticker while none was cancelled, and stopped afterwards. */
  lemma {:induction false} TickingOrStopped(rounds: seq<Round>, t: Task)
    requires t.at.AtTick?
    ensures RunFrom(t, EventsOf(rounds)).at == if NoneCancelled(rounds) then AtTick else Stopped
  {
    if rounds != [] {
      var init, last := rounds[..|rounds| - 1], rounds[|rounds| - 1];
      TickingOrStopped(init, t);
      assert rounds == init + [last];
      AppendRound(t, init, last);
      if NoneCancelled(init) {
        CollectIsARun(RunFrom(t, EventsOf(init)), last);
      } else {
        StoppedStays(RunFrom(t, EventsOf(init)), RoundEvents(last));
      }
    }
  }

  /** An abort ends the task wherever it waits, and nothing moves afterwards. */
  lemma AbortIsFinal(events: seq<Event>, more: seq<Event>)
    ensures Run(events + [Abort] + more) == Run(events).(at := Stopped)
  {
    RunConcat(NEW_TASK, events + [Abort], more);
    RunAppend(NEW_TASK, events, Abort);
    StoppedStays(Run(events + [Abort]), more);
  }

  /** An aborted task does nothing more. */
  lemma {:induction false} StoppedForGood(t: Task, rounds: seq<Round>, n: nat)
    requires n <= |rounds| && RunFrom(t, EventsOf(rounds[..n])).at.Stopped?
    ensures RunFrom(t, EventsOf(rounds)) == RunFrom(t, EventsOf(rounds[..n]))
    decreases |rounds| - n
  {
    if n == |rounds| {
      assert rounds[..n] == rounds;
    } else {
      RoundsAppend(t, rounds, n);
      StoppedStays(RunFrom(t, EventsOf(rounds[..n])), RoundEvents(rounds[n]));
      StoppedForGood(t, rounds, n + 1);
    }
  }

  /** A collect that does these stages and fails at the next query, if there is one. */
  function RoundOf(stages: seq<Stage>): Round {
    Round(if |stages| > 0 && stages[0].Pool? then stages[0].status else PoolStatus(0, 0, 0),
          if |stages| > 1 && stages[1].Databases? then Rows(stages[1].rows) else QueryError,
          if |stages| > 2 && stages[2].Tables? then Rows(stages[2].rows) else QueryError,
          if |stages| > 3 && stages[3].Locks? then Rows(stages[3].rows) else QueryError)
  }

  lemma RoundOfStages(stages: seq<Stage>)
    requires StagePrefix(stages)
    ensures StagesOf(RoundOf(stages)) == stages && OutcomeOf(RoundOf(stages)) != Cancelled
  {
    assert Rank(stages[0]) == 0 && (|stages| > 1 ==> Rank(stages[1]) == 1);
    assert (|stages| > 2 ==> Rank(stages[2]) == 2) && (|stages| > 3 ==> Rank(stages[3]) == 3);
  }

  function RoundsOf(log: seq<seq<Stage>>): seq<Round> {
    if log == [] then [] else RoundsOf(log[..|log| - 1]) + [RoundOf(log[|log| - 1])]
  }

  lemma OneMoreCollect(rounds: seq<Round>, stages: seq<Stage>)
    requires Run(EventsOf(rounds)).at.AtTick? && StagePrefix(stages)
    ensures var u := Run(EventsOf(rounds + [RoundOf(stages)]));
            u.at.AtTick? && u.log == Run(EventsOf(rounds)).log + [stages]
  {
    RoundOfStages(stages);
    AppendRound(NEW_TASK, rounds, RoundOf(stages));
    CollectIsARun(Run(EventsOf(rounds)), RoundOf(stages));
  }

  lemma {:induction false} LogIsCollects(log: seq<seq<Stage>>)
    requires forall k :: 0 <= k < |log| ==> StagePrefix(log[k])
    ensures var t := Run(EventsOf(RoundsOf(log))); t.at.AtTick? && t.log == log
  {
    if log != [] {
      var n := |log| - 1;
      assert log == log[..n] + [log[n]];
      LogIsCollects(log[..n]);
      OneMoreCollect(RoundsOf(log[..n]), log[n]);
    }
  }

  /** Every run of the task, whatever it waits for at the end, has the log and shows what some list of
      whole collects has and shows; so what `CollectAll` promises of the vectors holds at every
      await of every run. */
  lemma {:induction false} EveryRunIsCollects(events: seq<Event>)
    ensures var t, u := Run(events), Run(EventsOf(RoundsOf(Run(events).log)));
            u.at.AtTick? && u.log == t.log && u.shown == t.shown
  {
    RunKeepsInv(events);
    LogIsCollects(Run(events).log);
    TaskShows(events);
    TaskShows(EventsOf(RoundsOf(Run(events).log)));
  }
}
