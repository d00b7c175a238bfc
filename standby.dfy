/**
 * The standby server (`ServidorDTIRespaldo`).  It listens for the primary's
 * heartbeat, keeps the last state snapshot it was sent (`estado_respaldo`)
 * and a CSV copy of it, and when the heartbeat stops it starts its own
 * room server (`ServidorDTI`), registers with the broker as a worker and
 * serves requests, at most ten at a time.
 */
module Standby {
  import opened Dicts
  import opened Wire
  import opened PyText
  import opened Rooms

  // ---------------------------------------------------------------------------
  // The snapshot: `{"aulas": {id: record, ...}}`
  // ---------------------------------------------------------------------------

  /** What the expression `estado['aulas']` finds in a snapshot. */
  datatype AulasField =
    | NoAulas                                  // `'aulas' in estado` is false
    | Records(recs: seq<Entry<string, Json>>)  // an object of records
    | NotAMapping                              // present, but `.items()` or indexing raises
    | Unreadable                               // `'aulas' in estado` itself raises `TypeError`

  /** `'aulas' in estado` followed by `estado['aulas'].items()`: an object is
      searched by key, a list by element and a string by substring; any other
      value cannot be searched. */
  function AulasOf(j: Json): (a: AulasField)
    ensures a.Records? <==> Member(j, "aulas").Some? && Member(j, "aulas").value.JObj?
    ensures a.Records? ==> a.recs == Member(j, "aulas").value.members
    ensures a.Unreadable? <==> j.JNull? || j.JBool? || j.JInt?
    ensures j.JObj? && !HasKey(j.members, "aulas") ==> a.NoAulas?
  {
    match j
    case JObj(_) =>
      (match Member(j, "aulas")
       case None => NoAulas
       case Some(v) => if v.JObj? then Records(v.members) else NotAMapping)
    case JArr(items) => if JStr("aulas") in items then NotAMapping else NoAulas
    case JStr(s) => if Contains(s, "aulas") then NotAMapping else NoAulas
    case _ => Unreadable
  }

  /** The fields of one snapshot record as the merge reads them; `None` is a
      field that is missing or cannot be read (`KeyError`, or `ValueError`
      from `TipoAula` / `EstadoAula`). */
  datatype Fields = Fields(
    id: Option<string>,
    kind: Option<RoomKind>,
    status: Option<RoomStatus>,
    capacity: Option<int>,
    faculty: Option<string>,
    program: Option<string>,
    requestedAt: Option<string>,
    assignedAt: Option<string>)

  type FieldRecords = seq<Entry<string, Fields>>

  function FieldsOf(rec: Json): Fields
  {
    var k := match StrField(rec, "tipo") case None => None case Some(s) => KindOf(s);
    var st := match StrField(rec, "estado") case None => None case Some(s) => StatusOf(s);
    Fields(StrField(rec, "id"), k, st, IntField(rec, "capacidad"), StrField(rec, "facultad"),
           StrField(rec, "programa"), StrField(rec, "fecha_solicitud"), StrField(rec, "fecha_asignacion"))
  }

  /** `estado['aulas'].items()` read record by record. */
  function ReadRecords(recs: seq<Entry<string, Json>>): (rs: FieldRecords)
    ensures |rs| == |recs| && forall i :: 0 <= i < |recs| ==> rs[i] == Entry(recs[i].key, FieldsOf(recs[i].val))
    ensures DistinctKeys(recs) ==> DistinctKeys(rs)
  {
    seq(|recs|, i requires 0 <= i < |recs| => Entry(recs[i].key, FieldsOf(recs[i].val)))
  }

  /** The room a snapshot record describes, under the id `id`: every one of
      its seven fields must be present and readable. */
  function RecordRoom(id: string, f: Fields): (r: Option<Room>)
    ensures r.Some? ==> r.value.id == id
  {
    if f.kind.Some? && f.status.Some? && f.capacity.Some? && f.faculty.Some? && f.program.Some?
       && f.requestedAt.Some? && f.assignedAt.Some? then
      Some(Room(id, f.kind.value, f.status.value, f.capacity.value, f.faculty.value, f.program.value,
                f.requestedAt.value, f.assignedAt.value))
    else None
  }

  /** The in-place update of an existing room: the fields are assigned one by
      one in the order `tipo`, `estado`, `capacidad`, `facultad`, `programa`,
      `fecha_solicitud`, `fecha_asignacion`, and the first one that cannot be
      read stops the update with the earlier assignments kept.  The id is
      never touched; the update completes exactly when the record describes a
      room, and then the room is the one it describes. */
  function UpdateFields(r: Room, f: Fields): (res: (Room, bool))
    ensures res.0.id == r.id
    ensures res.1 <==> RecordRoom(r.id, f).Some?
    ensures res.1 ==> res.0 == RecordRoom(r.id, f).value
  {
    if f.kind.None? then (r, false) else
    var r1 := r.(kind := f.kind.value);
    if f.status.None? then (r1, false) else
    var r2 := r1.(status := f.status.value);
    if f.capacity.None? then (r2, false) else
    var r3 := r2.(capacity := f.capacity.value);
    if f.faculty.None? then (r3, false) else
    var r4 := r3.(faculty := f.faculty.value);
    if f.program.None? then (r4, false) else
    var r5 := r4.(program := f.program.value);
    if f.requestedAt.None? then (r5, false) else
    var r6 := r5.(requestedAt := f.requestedAt.value);
    if f.assignedAt.None? then (r6, false) else
    (r6.(assignedAt := f.assignedAt.value), true)
  }

  /** `Aula(id=rec['id'], ...)`: all arguments are read before the room
      exists, so a record that fails anywhere creates nothing. */
  function NewRoom(f: Fields): (r: Option<Room>)
    ensures r.Some? <==> f.id.Some? && RecordRoom(f.id.value, f).Some?
    ensures r.Some? ==> r == RecordRoom(f.id.value, f)
  {
    match f.id
    case None => None
    case Some(id) => RecordRoom(id, f)
  }

  /** The room one record writes under `key`: the updated room when `key`
      is present (written back even after a partial update), the new room
      otherwise; `None` when nothing is written. */
  function Written(t: Table, key: string, rec: Fields): Option<Room>
  {
    if HasKey(t, key) then Some(UpdateFields(Get(t, key).value, rec).0) else NewRoom(rec)
  }

  /** One record of the merge: an existing id is updated in place, a new one
      is inserted under the snapshot's key (with the record's own `id` as the
      room's id).  The flag is false when the record raised. */
  function MergeOne(t: Table, key: string, rec: Fields): (res: (Table, bool))
  {
    var w := Written(t, key, rec);
    (if w.Some? then Put(t, key, w.value) else t,
     if HasKey(t, key) then UpdateFields(Get(t, key).value, rec).1 else w.Some?)
  }

  /** What one record does to the table: it changes at most the entry under
      `key`, keeps the keys distinct and their order, and gives an existing
      room back with its own id. */
  lemma MergeStep(t: Table, key: string, rec: Fields)
    requires DistinctKeys(t)
    ensures var u := MergeOne(t, key, rec);
      && (Written(t, key, rec).None? ==> u.0 == t && !u.1)
      && (Written(t, key, rec).Some? ==> u.0 == Put(t, key, Written(t, key, rec).value))
      && (HasKey(t, key) ==> Written(t, key, rec).Some? && Written(t, key, rec).value.id == Get(t, key).value.id)
      && (!HasKey(t, key) && Written(t, key, rec).Some? ==> Some(Written(t, key, rec).value.id) == rec.id)
      && DistinctKeys(u.0) && |t| <= |u.0| && Keys(u.0)[..|t|] == Keys(t)
      && forall k :: k != key ==> Get(u.0, k) == Get(t, k)
  {
    var w := Written(t, key, rec);
    if w.Some? {
      PutSpec(t, key, w.value);
      var m := Put(t, key, w.value);
      assert Keys(m)[..|t|] == Keys(t);
    }
  }

  /** Every record of `recs` is applied to `t`. */
  predicate AllApplied(t: Table, recs: FieldRecords)
  {
    forall i :: 0 <= i < |recs| ==> Applied(t, recs[i])
  }

  /** A record that completes leaves the room it describes under its key,
      and the records with other keys applied before stay applied. */
  lemma AppliesStep(t: Table, key: string, rec: Fields, earlier: FieldRecords)
    requires DistinctKeys(t) && MergeOne(t, key, rec).1
    requires !HasKey(earlier, key) && AllApplied(t, earlier)
    ensures AllApplied(MergeOne(t, key, rec).0, earlier + [Entry(key, rec)])
  {
    var v := Written(t, key, rec).value;
    PutSpec(t, key, v);
    var m := MergeOne(t, key, rec).0;
    var all := earlier + [Entry(key, rec)];
    forall i | 0 <= i < |all| ensures Applied(m, all[i]) {
      if i < |earlier| {
        assert all[i] == earlier[i] && earlier[i].key != key;
        assert Applied(t, earlier[i]);
      }
    }
  }

  /** A record whose `id` is its key keeps a well-formed table well formed. */
  lemma WellFormedStep(t: Table, key: string, rec: Fields)
    requires WellFormed(t) && rec.id == Some(key)
    ensures WellFormed(MergeOne(t, key, rec).0)
  {
    MergeStep(t, key, rec);
    var w := Written(t, key, rec);
    if w.Some? {
      var v := w.value;
      assert v.id == key by {
        if HasKey(t, key) {
          var i := IndexOf(t, key);
          assert t[i].key == t[i].val.id;
        }
      }
      var m := Put(t, key, v);
      forall i | 0 <= i < |m| ensures m[i].key == m[i].val.id {
        if i < |t| && i != IndexOf(t, key) { assert m[i] == t[i]; }
      }
    }
  }

  /** The merge loop over the first `n` records; it stops at the first record
      that raises. */
  function MergePrefix(t: Table, recs: FieldRecords, n: nat): (res: (Table, bool))
    requires n <= |recs|
    decreases n
  {
    if n == 0 then (t, true)
    else
      var p := MergePrefix(t, recs, n - 1);
      if !p.1 then p else MergeOne(p.0, recs[n - 1].key, recs[n - 1].val)
  }

  /** One more record of the merge loop. */
  lemma MergeUnfold(t: Table, recs: FieldRecords, n: nat)
    requires 0 < n <= |recs|
    ensures var p := MergePrefix(t, recs, n - 1);
      MergePrefix(t, recs, n) == if p.1 then MergeOne(p.0, recs[n - 1].key, recs[n - 1].val) else p
  {
  }

  function MergeAll(t: Table, recs: FieldRecords): (Table, bool)
  {
    MergePrefix(t, recs, |recs|)
  }

  /** The room stored under the record's key describes the record. */
  predicate Applied(t: Table, e: Entry<string, Fields>)
  {
    HasKey(t, e.key) && RecordRoom(Get(t, e.key).value.id, e.val) == Some(Get(t, e.key).value)
  }

  /** The merge loses no room and reorders none: the old keys keep their
      positions, new keys come after them, the table keeps distinct keys, and
      a room whose id the snapshot does not mention is left as it was. */
  lemma {:induction false} MergeKeeps(t: Table, recs: FieldRecords, n: nat)
    requires DistinctKeys(t) && n <= |recs|
    ensures var m := MergePrefix(t, recs, n).0;
      && DistinctKeys(m) && |t| <= |m| && Keys(m)[..|t|] == Keys(t)
      && forall k :: !HasKey(recs, k) ==> Get(m, k) == Get(t, k)
    decreases n
  {
    if n > 0 {
      MergeKeeps(t, recs, n - 1);
      MergeUnfold(t, recs, n);
      var p := MergePrefix(t, recs, n - 1);
      if p.1 {
        var e := recs[n - 1];
        MergeStep(p.0, e.key, e.val);
        var m := MergeOne(p.0, e.key, e.val).0;
        assert Keys(m)[..|t|] == Keys(m)[..|p.0|][..|t|];
        forall k | !HasKey(recs, k) ensures Get(m, k) == Get(t, k) {
          assert recs[n - 1].key == e.key;
        }
      }
    }
  }

  /** A later key of a dict with distinct keys does not occur before it. */
  lemma NotEarlier(recs: FieldRecords, n: nat)
    requires DistinctKeys(recs) && 0 < n <= |recs|
    ensures !HasKey(recs[..n - 1], recs[n - 1].key)
  {
    var pre := recs[..n - 1];
    forall i | 0 <= i < |pre| ensures pre[i].key != recs[n - 1].key {
      assert pre[i] == recs[i];
    }
  }

  /** After a merge that completes, every record of the snapshot is applied:
      the room under its key is the room it describes. */
  lemma {:induction false} MergeApplies(t: Table, recs: FieldRecords, n: nat)
    requires DistinctKeys(t) && DistinctKeys(recs) && n <= |recs|
    requires MergePrefix(t, recs, n).1
    ensures AllApplied(MergePrefix(t, recs, n).0, recs[..n])
    decreases n
  {
    if n > 0 {
      var p := MergePrefix(t, recs, n - 1);
      MergeUnfold(t, recs, n);
      assert p.1;
      MergeApplies(t, recs, n - 1);
      MergeKeeps(t, recs, n - 1);
      AppliesNext(p.0, recs, n);
    }
  }

  /** The record at `n - 1`, merged after the ones before it, adds itself to
      the applied records. */
  lemma AppliesNext(m: Table, recs: FieldRecords, n: nat)
    requires DistinctKeys(m) && DistinctKeys(recs) && 0 < n <= |recs|
    requires AllApplied(m, recs[..n - 1]) && MergeOne(m, recs[n - 1].key, recs[n - 1].val).1
    ensures AllApplied(MergeOne(m, recs[n - 1].key, recs[n - 1].val).0, recs[..n])
  {
    NotEarlier(recs, n);
    var e := recs[n - 1];
    AppliesStep(m, e.key, e.val, recs[..n - 1]);
    assert recs[..n - 1] + [Entry(e.key, e.val)] == recs[..n];
  }

  /** Assigning a key the value it already holds changes nothing. */
  lemma PutSame(t: Table, k: string, v: Room)
    requires Get(t, k) == Some(v)
    ensures Put(t, k, v) == t
  {
    var i := IndexOf(t, k);
    assert t[i] == Entry(k, v);
  }

  /** A record already applied to a table leaves it as it is. */
  lemma AppliedStep(t: Table, e: Entry<string, Fields>)
    requires Applied(t, e)
    ensures MergeOne(t, e.key, e.val) == (t, true)
  {
    var v := Get(t, e.key).value;
    assert UpdateFields(v, e.val) == (v, true);
    PutSame(t, e.key, v);
  }

  /** A table to which every record is applied is a fixed point of the
      merge. */
  lemma {:induction false} MergeStable(t: Table, recs: FieldRecords, n: nat)
    requires n <= |recs| && AllApplied(t, recs)
    ensures MergePrefix(t, recs, n) == (t, true)
    decreases n
  {
    if n > 0 {
      MergeStable(t, recs, n - 1);
      MergeUnfold(t, recs, n);
      AppliedStep(t, recs[n - 1]);
    }
  }

  /** Applying the same snapshot twice gives what applying it once gives,
      when every record of it applies. */
  lemma MergeIdempotent(t: Table, recs: FieldRecords)
    requires DistinctKeys(t) && DistinctKeys(recs) && MergeAll(t, recs).1
    ensures MergeAll(MergeAll(t, recs).0, recs) == MergeAll(t, recs)
  {
    MergeApplies(t, recs, |recs|);
    assert recs[..|recs|] == recs;
    MergeStable(MergeAll(t, recs).0, recs, |recs|);
  }

  /** A well-formed table stays well formed under a snapshot whose records
      carry their own key as `id`. */
  lemma {:induction false} MergeWellFormed(t: Table, recs: FieldRecords, n: nat)
    requires WellFormed(t) && n <= |recs|
    requires forall i :: 0 <= i < |recs| ==> recs[i].val.id == Some(recs[i].key)
    ensures WellFormed(MergePrefix(t, recs, n).0)
    decreases n
  {
    if n > 0 {
      MergeWellFormed(t, recs, n - 1);
      MergeUnfold(t, recs, n);
      var p := MergePrefix(t, recs, n - 1);
      if p.1 {
        assert recs[n - 1].val.id == Some(recs[n - 1].key);
        WellFormedStep(p.0, recs[n - 1].key, recs[n - 1].val);
      }
    }
  }

  /** Once a record has raised, the merge loop has stopped. */
  lemma {:induction false} MergeStuck(t: Table, recs: FieldRecords, i: nat, n: nat)
    requires i <= n <= |recs| && !MergePrefix(t, recs, i).1
    ensures MergePrefix(t, recs, n) == MergePrefix(t, recs, i)
    decreases n
  {
    if n > i {
      MergeStuck(t, recs, i, n - 1);
      MergeUnfold(t, recs, n);
    }
  }

  // ---------------------------------------------------------------------------
  // The backup file: `RESPALDO_ESTADO_ARCHIVO`, a CSV with a header row
  // ---------------------------------------------------------------------------

  type Csv = seq<seq<string>>

  /** The backup file as the standby finds it: absent, readable as rows, or
      present but unreadable (an exception while reading). */
  datatype BackupFile = NoFile | FileRows(rows: Csv) | FileError

  const Header: seq<string> :=
    ["id", "tipo", "estado", "capacidad", "facultad", "programa", "fecha_solicitud", "fecha_asignacion"]

  /** The record `cargar_estado_respaldo` builds from a row: the cells as
      text, except the capacity, which is its digits' value or 0. */
  function RowRecord(row: seq<string>): Json
    requires |row| >= 8
  {
    JObj([Entry("id", JStr(row[0])), Entry("tipo", JStr(row[1])), Entry("estado", JStr(row[2])),
          Entry("capacidad", JInt(if IsDigits(row[3]) then DigitsValue(row[3]) else 0)),
          Entry("facultad", JStr(row[4])), Entry("programa", JStr(row[5])),
          Entry("fecha_solicitud", JStr(row[6])), Entry("fecha_asignacion", JStr(row[7]))])
  }

  /** The records loaded from the data rows: rows of fewer than eight cells
      are skipped, and a later row with the same id replaces the earlier
      record in place. */
  function LoadRows(rows: Csv): seq<Entry<string, Json>>
    decreases |rows|
  {
    if |rows| == 0 then []
    else
      var acc := LoadRows(rows[..|rows| - 1]);
      var row := rows[|rows| - 1];
      if |row| >= 8 then Put(acc, row[0], RowRecord(row)) else acc
  }

  /** The loaded records keep distinct keys, and each one carries its key as
      its `id`. */
  lemma {:induction false} LoadRowsKeyed(rows: Csv)
    ensures DistinctKeys(LoadRows(rows))
    ensures forall i :: 0 <= i < |LoadRows(rows)| ==> StrField(LoadRows(rows)[i].val, "id") == Some(LoadRows(rows)[i].key)
    decreases |rows|
  {
    if |rows| > 0 {
      var acc := LoadRows(rows[..|rows| - 1]);
      LoadRowsKeyed(rows[..|rows| - 1]);
      var row := rows[|rows| - 1];
      if |row| >= 8 {
        PutSpec(acc, row[0], RowRecord(row));
        var r := Put(acc, row[0], RowRecord(row));
        assert StrField(RowRecord(row), "id") == Some(row[0]);
        forall i | 0 <= i < |r| ensures StrField(r[i].val, "id") == Some(r[i].key) {
          if i < |acc| && (!HasKey(acc, row[0]) || i != IndexOf(acc, row[0])) {
            assert r[i] == acc[i];
          }
        }
      }
    }
  }

  /** The records of the backup file: none unless its first row has at
      least eight cells. */
  function LoadedRecords(file: BackupFile): seq<Entry<string, Json>>
  {
    if file.FileRows? && |file.rows| > 0 && |file.rows[0]| >= 8 then LoadRows(file.rows[1..]) else []
  }

  /** `cargar_estado_respaldo`: `{"aulas": {...}}` with the file's records. */
  function LoadBackup(file: BackupFile): (j: Json)
    ensures AulasOf(j) == Records(LoadedRecords(file))
  {
    JObj([Entry("aulas", JObj(LoadedRecords(file)))])
  }

  /** `str(v)` as `csv.writer` writes a cell: texts as they are, integers in
      decimal, `None` as an empty cell, booleans by name; lists and objects
      (written as their `repr`) are not modelled. */
  function CellText(v: Json): Option<string>
  {
    match v
    case JStr(s) => Some(s)
    case JInt(i) => Some(ShowInt(i))
    case JNull => Some("")
    case JBool(b) => Some(if b then "True" else "False")
    case _ => None
  }

  function Cell(rec: Json, key: string): Option<string>
  {
    match Member(rec, key)
    case None => None
    case Some(v) => CellText(v)
  }

  /** The row written for one snapshot record: its eight fields in header
      order; `None` where reading one raises. */
  function RecordRow(rec: Json): (row: Option<seq<string>>)
    ensures row.Some? ==> |row.value| == 8
  {
    var c0, c1, c2, c3 := Cell(rec, "id"), Cell(rec, "tipo"), Cell(rec, "estado"), Cell(rec, "capacidad");
    var c4, c5, c6, c7 := Cell(rec, "facultad"), Cell(rec, "programa"), Cell(rec, "fecha_solicitud"), Cell(rec, "fecha_asignacion");
    if c0.Some? && c1.Some? && c2.Some? && c3.Some? && c4.Some? && c5.Some? && c6.Some? && c7.Some? then
      Some([c0.value, c1.value, c2.value, c3.value, c4.value, c5.value, c6.value, c7.value])
    else None
  }

  /** The row of each record, read in order (`None` where reading raises). */
  function RecordRows(recs: seq<Entry<string, Json>>): (rows: seq<Option<seq<string>>>)
    ensures |rows| == |recs| && forall i :: 0 <= i < |recs| ==> rows[i] == RecordRow(recs[i].val)
  {
    seq(|recs|, i requires 0 <= i < |recs| => RecordRow(recs[i].val))
  }

  /** The data rows written for the first `n` records, stopping at the
      first record that raises. */
  function JsonRows(rows: seq<Option<seq<string>>>, n: nat): (res: (Csv, bool))
    requires n <= |rows|
    decreases n
  {
    if n == 0 then ([], true)
    else
      var p := JsonRows(rows, n - 1);
      if !p.1 then p
      else if rows[n - 1].None? then (p.0, false)
      else (p.0 + [rows[n - 1].value], true)
  }

  /** Once a record has raised, no further row is written. */
  lemma {:induction false} JsonRowsStuck(rows: seq<Option<seq<string>>>, i: nat, n: nat)
    requires i <= n <= |rows| && !JsonRows(rows, i).1
    ensures JsonRows(rows, n) == JsonRows(rows, i)
    decreases n
  {
    if n > i {
      JsonRowsStuck(rows, i, n - 1);
    }
  }

  /** `guardar_estado_respaldo_desde_json`: the file is rewritten only when
      `'aulas' in estado` holds; it is truncated to its header before the
      records are read, so a snapshot whose `aulas` is not an object leaves
      just the header, and a record that raises ends the file after the rows
      written before it. */
  function SnapshotFile(j: Json, current: BackupFile): BackupFile
  {
    match AulasOf(j)
    case NoAulas => current
    case Unreadable => current
    case NotAMapping => FileRows([Header])
    case Records(recs) => FileRows([Header] + JsonRows(RecordRows(recs), |recs|).0)
  }

  /** The loop of `guardar_estado_respaldo_desde_json` over the records:
      each record's row is written in turn until one raises. */
  method SnapshotRows(rows: seq<Option<seq<string>>>) returns (out: Csv, complete: bool)
    ensures (out, complete) == JsonRows(rows, |rows|)
  {
    out, complete := [], true;
    var i := 0;
    while i < |rows| && complete
      invariant 0 <= i <= |rows|
      invariant (out, complete) == JsonRows(rows, i)
    {
      var row := rows[i];
      if row.None? {
        complete := false;
      } else {
        out := out + [row.value];
      }
      i := i + 1;
    }
    if !complete {
      JsonRowsStuck(rows, i, |rows|);
    }
  }

  /** The row `guardar_estado_respaldo` writes for a room. */
  function RoomRow(r: Room): (row: seq<string>)
    ensures |row| == 8 && row[0] == r.id
  {
    [r.id, KindValue(r.kind), StatusValue(r.status), ShowInt(r.capacity), r.faculty, r.program, r.requestedAt, r.assignedAt]
  }

  function TableRows(t: Table): (rows: Csv)
    ensures |rows| == |t| && forall i :: 0 <= i < |t| ==> rows[i] == RoomRow(t[i].val)
  {
    seq(|t|, i requires 0 <= i < |t| => RoomRow(t[i].val))
  }

  /** `guardar_estado_respaldo`: the header, then one row per room in table
      order. */
  function ServerFile(t: Table): BackupFile
  {
    FileRows([Header] + TableRows(t))
  }

  /** A room as a snapshot record. */
  function RoomRecord(r: Room): Json
  {
    JObj([Entry("id", JStr(r.id)), Entry("tipo", JStr(KindValue(r.kind))), Entry("estado", JStr(StatusValue(r.status))),
          Entry("capacidad", JInt(r.capacity)), Entry("facultad", JStr(r.faculty)), Entry("programa", JStr(r.program)),
          Entry("fecha_solicitud", JStr(r.requestedAt)), Entry("fecha_asignacion", JStr(r.assignedAt))])
  }

  /** The records of a table's snapshot, under the table's keys. */
  function TableRecords(t: Table): (recs: seq<Entry<string, Json>>)
    ensures |recs| == |t| && forall i :: 0 <= i < |t| ==> recs[i] == Entry(t[i].key, RoomRecord(t[i].val))
  {
    seq(|t|, i requires 0 <= i < |t| => Entry(t[i].key, RoomRecord(t[i].val)))
  }

  /** The snapshot of a room table, `{"aulas": {...}}`. */
  function SnapshotOf(t: Table): (j: Json)
    ensures AulasOf(j) == Records(TableRecords(t))
  {
    JObj([Entry("aulas", JObj(TableRecords(t)))])
  }

  /** Each field of a room's record reads back as the room's own value. */
  lemma RoomRecordFields(r: Room)
    ensures var rec := RoomRecord(r);
      && Member(rec, "id") == Some(JStr(r.id))
      && Member(rec, "tipo") == Some(JStr(KindValue(r.kind)))
      && Member(rec, "estado") == Some(JStr(StatusValue(r.status)))
      && Member(rec, "capacidad") == Some(JInt(r.capacity))
      && Member(rec, "facultad") == Some(JStr(r.faculty))
      && Member(rec, "programa") == Some(JStr(r.program))
      && Member(rec, "fecha_solicitud") == Some(JStr(r.requestedAt))
      && Member(rec, "fecha_asignacion") == Some(JStr(r.assignedAt))
  {
    var ms := RoomRecord(r).members;
    RoomRecordDistinct(r);
    UniqueIndex(ms, 0, "id");
    UniqueIndex(ms, 1, "tipo");
    UniqueIndex(ms, 2, "estado");
    UniqueIndex(ms, 3, "capacidad");
    UniqueIndex(ms, 4, "facultad");
    UniqueIndex(ms, 5, "programa");
    UniqueIndex(ms, 6, "fecha_solicitud");
    UniqueIndex(ms, 7, "fecha_asignacion");
  }

  /** A room's record names each field once. */
  lemma RoomRecordDistinct(r: Room)
    ensures DistinctKeys(RoomRecord(r).members)
  {
    var ms := RoomRecord(r).members;
    assert Keys(ms) == ["id", "tipo", "estado", "capacidad", "facultad", "programa", "fecha_solicitud", "fecha_asignacion"];
  }

  /** Writing a room's record writes the room's row. */
  lemma RoomRowWritten(r: Room)
    ensures RecordRow(RoomRecord(r)) == Some(RoomRow(r))
  {
    RoomRecordCells(r);
  }

  lemma RoomRecordCells(r: Room)
    ensures var rec := RoomRecord(r);
      && Cell(rec, "id") == Some(r.id)
      && Cell(rec, "tipo") == Some(KindValue(r.kind))
      && Cell(rec, "estado") == Some(StatusValue(r.status))
      && Cell(rec, "capacidad") == CellText(JInt(r.capacity))
      && Cell(rec, "facultad") == Some(r.faculty)
      && Cell(rec, "programa") == Some(r.program)
      && Cell(rec, "fecha_solicitud") == Some(r.requestedAt)
      && Cell(rec, "fecha_asignacion") == Some(r.assignedAt)
  {
    RoomRecordFields(r);
    var rec := RoomRecord(r);
    StringCell(rec, "id", r.id);
    StringCell(rec, "tipo", KindValue(r.kind));
    StringCell(rec, "estado", StatusValue(r.status));
    StringCell(rec, "facultad", r.faculty);
    StringCell(rec, "programa", r.program);
    StringCell(rec, "fecha_solicitud", r.requestedAt);
    StringCell(rec, "fecha_asignacion", r.assignedAt);
  }

  /** A string field is written as it is. */
  lemma StringCell(rec: Json, key: string, s: string)
    requires Member(rec, key) == Some(JStr(s))
    ensures Cell(rec, key) == Some(s)
  {
  }

  /** The row of a room with a non-negative capacity loads back as the
      room's record. */
  lemma RoomRowLoaded(r: Room)
    requires r.capacity >= 0
    ensures RowRecord(RoomRow(r)) == RoomRecord(r)
  {
    ShowNatReadsBack(r.capacity);
  }

  /** The merge reads every field of a room's record as the room's own. */
  lemma RoomRecordRead(r: Room)
    ensures FieldsOf(RoomRecord(r)) == Fields(Some(r.id), Some(r.kind), Some(r.status), Some(r.capacity),
                                             Some(r.faculty), Some(r.program), Some(r.requestedAt), Some(r.assignedAt))
  {
    RoomRecordFields(r);
  }

  /** Loading the rows written for a table gives the table's records. */
  lemma {:induction false} LoadTableRows(t: Table)
    requires WellFormed(t) && forall i :: 0 <= i < |t| ==> t[i].val.capacity >= 0
    ensures LoadRows(TableRows(t)) == TableRecords(t)
    decreases |t|
  {
    if |t| > 0 {
      var init := t[..|t| - 1];
      assert WellFormed(init);
      LoadTableRows(init);
      LoadRowsLast(t);
      TableRecordsLast(t);
    }
  }

  /** Loading a table's rows reads the last row on top of the others. */
  lemma LoadRowsLast(t: Table)
    requires |t| > 0 && t[|t| - 1].val.capacity >= 0
    ensures var r := t[|t| - 1].val;
      LoadRows(TableRows(t)) == Put(LoadRows(TableRows(t[..|t| - 1])), r.id, RoomRecord(r))
  {
    var rows := TableRows(t);
    assert rows[..|t| - 1] == TableRows(t[..|t| - 1]);
    RoomRowLoaded(t[|t| - 1].val);
  }

  /** The last room's record comes after the others, under a new key. */
  lemma TableRecordsLast(t: Table)
    requires |t| > 0 && WellFormed(t)
    ensures var r := t[|t| - 1].val; var recs := TableRecords(t[..|t| - 1]);
      && !HasKey(recs, r.id)
      && TableRecords(t) == recs + [Entry(r.id, RoomRecord(r))]
  {
    var r := t[|t| - 1].val;
    var recs := TableRecords(t[..|t| - 1]);
    forall j | 0 <= j < |recs| ensures recs[j].key != r.id {
      assert t[j].key != t[|t| - 1].key;
    }
  }

  /** The backup file written from a table (with non-negative capacities)
      loads back as that table's snapshot. */
  lemma BackupRoundTrip(t: Table)
    requires WellFormed(t) && forall i :: 0 <= i < |t| ==> t[i].val.capacity >= 0
    ensures LoadBackup(ServerFile(t)) == SnapshotOf(t)
  {
    assert ([Header] + TableRows(t))[1..] == TableRows(t);
    LoadTableRows(t);
  }

  lemma TableRowAt(t: Table, i: nat)
    requires i < |t|
    ensures RecordRows(TableRecords(t))[i] == Some(RoomRow(t[i].val))
  {
    var rec := TableRecords(t)[i].val;
    assert rec == RoomRecord(t[i].val);
    RoomRowWritten(t[i].val);
  }

  lemma {:induction false} TableRowsWritten(t: Table, rows: seq<Option<seq<string>>>, n: nat)
    requires n <= |t| && n <= |rows| && forall i :: 0 <= i < n ==> rows[i] == Some(RoomRow(t[i].val))
    ensures JsonRows(rows, n) == (TableRows(t)[..n], true)
    decreases n
  {
    if n > 0 {
      TableRowsWritten(t, rows, n - 1);
      PrefixStep(TableRows(t), n);
      assert JsonRows(rows, n) == (TableRows(t)[..n - 1] + [RoomRow(t[n - 1].val)], true);
    }
  }

  /** Writing a table's snapshot as CSV produces the same file as writing the
      table itself, whatever the file held before. */
  lemma SnapshotWritesTable(t: Table, current: BackupFile)
    ensures SnapshotFile(SnapshotOf(t), current) == ServerFile(t)
  {
    var rows := RecordRows(TableRecords(t));
    forall i | 0 <= i < |t| ensures rows[i] == Some(RoomRow(t[i].val)) {
      TableRowAt(t, i);
    }
    TableRowsWritten(t, rows, |t|);
    assert TableRows(t)[..|t|] == TableRows(t);
  }

  lemma TableFieldsAt(t: Table, i: nat)
    requires WellFormed(t) && i < |t|
    ensures ReadRecords(TableRecords(t))[i].key == t[i].key
    ensures NewRoom(ReadRecords(TableRecords(t))[i].val) == Some(t[i].val)
  {
    var r := t[i].val;
    assert TableRecords(t)[i] == Entry(t[i].key, RoomRecord(r));
    RoomRecordRead(r);
  }

  lemma {:induction false} MergeRebuilds(t: Table, rs: FieldRecords, n: nat)
    requires WellFormed(t) && n <= |t| && n <= |rs|
    requires forall i :: 0 <= i < n ==> rs[i].key == t[i].key && NewRoom(rs[i].val) == Some(t[i].val)
    ensures MergePrefix([], rs, n) == (t[..n], true)
    decreases n
  {
    if n > 0 {
      MergeRebuilds(t, rs, n - 1);
      MergeUnfold([], rs, n);
      var pre := t[..n - 1];
      assert !HasKey(pre, t[n - 1].key) by {
        forall j | 0 <= j < |pre| ensures pre[j].key != t[n - 1].key {
          assert t[j].key != t[n - 1].key;
        }
      }
      PrefixStep(t, n);
    }
  }

  /** Merging a table's snapshot into an empty table rebuilds the table. */
  lemma MergeRestores(t: Table)
    requires WellFormed(t)
    ensures MergeAll([], ReadRecords(TableRecords(t))) == (t, true)
  {
    var rs := ReadRecords(TableRecords(t));
    forall i | 0 <= i < |t| ensures rs[i].key == t[i].key && NewRoom(rs[i].val) == Some(t[i].val) {
      TableFieldsAt(t, i);
    }
    MergeRebuilds(t, rs, |t|);
    assert t[..|t|] == t;
  }

  /** The backup of a table, read back as a standby's state when it starts
      and merged into an empty table, gives the table back: the backup file
      loses no room.  (The code itself never merges into an empty table at
      promotion; this states what the file preserves.) */
  lemma FailoverRestores(t: Table)
    requires WellFormed(t) && forall i :: 0 <= i < |t| ==> t[i].val.capacity >= 0
    ensures AulasOf(LoadBackup(ServerFile(t))) == Records(TableRecords(t))
    ensures MergeAll([], ReadRecords(LoadedRecords(ServerFile(t)))) == (t, true)
  {
    BackupRoundTrip(t);
    MergeRestores(t);
  }

  // ---------------------------------------------------------------------------
  // How many requests run at once
  // ---------------------------------------------------------------------------

  /** `max_concurrent_requests`, also the semaphore's initial value. */
  const MaxConcurrent: int := 10

  /** `active_requests` and the semaphore's counter. */
  datatype Gate = Gate(active: int, permits: int)

  /** What the accounting is meant to keep: every permit is either free or
      held by a running request, so at most ten requests run. */
  predicate Balanced(g: Gate)
  {
    0 <= g.active && 0 <= g.permits && g.active + g.permits == MaxConcurrent
  }

  /** One turn of the worker loop as written: a permit is taken when one is
      free; a request admitted in the turn raises the count; and the permit
      is given back whenever no further message is waiting at the end of the
      turn (`pending`), even when the request admitted in the turn still
      holds it. */
  function TurnAsWritten(g: Gate, admitted: bool, pending: bool): Gate
  {
    if g.permits <= 0 then g
    else
      var taken := Gate(g.active + (if admitted then 1 else 0), g.permits - 1);
      if pending then taken else taken.(permits := taken.permits + 1)
  }

  /** One turn of the worker loop, corrected: the permit taken goes with the
      request admitted in the turn, and back to the semaphore otherwise. */
  function Turn(g: Gate, admitted: bool): (g': Gate)
    ensures g.permits <= 0 ==> g' == g
    ensures g.permits > 0 && admitted ==> g' == Gate(g.active + 1, g.permits - 1)
    ensures g.permits > 0 && !admitted ==> g' == g
  {
    if g.permits > 0 && admitted then Gate(g.active + 1, g.permits - 1) else g
  }

  /** The `finally` of `procesar_solicitud_con_tracking`: the count falls and
      the permit is released. */
  function Finished(g: Gate): Gate
  {
    Gate(g.active - 1, g.permits + 1)
  }

  /** As written, one request received while no other is waiting, once
      finished, leaves eleven permits: the permit was released twice. */
  lemma AsWrittenReleasesTwice()
    ensures Balanced(Gate(0, MaxConcurrent))
    ensures TurnAsWritten(Gate(0, MaxConcurrent), true, false) == Gate(1, MaxConcurrent)
    ensures Finished(TurnAsWritten(Gate(0, MaxConcurrent), true, false)) == Gate(0, MaxConcurrent + 1)
    ensures !Balanced(Finished(TurnAsWritten(Gate(0, MaxConcurrent), true, false)))
  {
  }

  /** With the corrected turn the accounting stays balanced, so no more than
      ten requests ever run at once, and a request is admitted exactly when a
      permit is free. */
  lemma TurnBalanced(g: Gate, admitted: bool)
    requires Balanced(g)
    ensures Balanced(Turn(g, admitted)) && Turn(g, admitted).active <= MaxConcurrent
    ensures Turn(g, admitted).active == g.active + 1 <==> admitted && g.active < MaxConcurrent
  {
  }

  /** Finishing a running request keeps the accounting balanced. */
  lemma FinishedBalanced(g: Gate)
    requires Balanced(g) && g.active > 0
    ensures Balanced(Finished(g)) && Finished(g).permits <= MaxConcurrent
  {
  }

  // ---------------------------------------------------------------------------
  // Replies of the standby's worker
  // ---------------------------------------------------------------------------

  /** `_enviar_error`: the error for the client, then `READY`. */
  function ErrorSends(codec: Codec, client: Frame, msg: string): seq<seq<Frame>>
  {
    [[Empty, client, Empty, codec.encode(ErrorObject(msg))], [Ready]]
  }

  /** What serving one request leaves: the messages sent, the server's
      table, the rows it last saved, and the backup file. */
  datatype Served = Served(sent: seq<seq<Frame>>, table: Table, stored: seq<Room>, file: BackupFile)

  /** `procesar_solicitud` on a standby that is `ready` (active, with a
      server) whose server holds `t` and last saved `stored`. */
  function Serve(codec: Codec, client: Frame, payload: Frame, now: string, store: Store,
                 ready: bool, t: Table, stored: seq<Room>, file: BackupFile): Served
  {
    if !ready then Served([], t, stored, file)
    else
      match codec.decode(payload)
      case NotJson => Served(ErrorSends(codec, client, "Formato de solicitud inválido"), t, stored, file)
      case NotText(_) => Served([], t, stored, file)
      case Parsed(j) =>
        if !j.JObj? then
          Served(ErrorSends(codec, client, "Error procesando solicitud: '" + TypeName(j) + "' object has no attribute 'get'"), t, stored, file)
        else
          var a := Assign(RequestOf(j), t, now, store);
          Served([[Empty, client, Empty, codec.encode(ReplyJson(a.reply))], [Ready]],
                 a.table, if a.saved then Values(a.table) else stored, ServerFile(a.table))
  }

  // ---------------------------------------------------------------------------
  // The standby object
  // ---------------------------------------------------------------------------

  class StandbyServer {
    /** `servidor_activo`: serving requests as the primary's replacement. */
    var active: bool
    /** `servidor_principal_vivo`. */
    var primaryAlive: bool
    /** `ultimo_latido`, as a clock reading. */
    var lastBeat: int
    /** `servidor`: the room server, once activation has created it. */
    var server: RoomServer?
    /** Whether the worker thread (`hilo_worker`) is running. */
    var workerRunning: bool
    /** `active_requests`. */
    var activeRequests: int
    /** The counter of `request_semaphore`. */
    var permits: int
    /** `estado_respaldo`: the last snapshot received or loaded. */
    var backup: Json
    /** The backup file's contents. */
    var backupFile: BackupFile

    function GateOf(): Gate
      reads this
    {
      Gate(activeRequests, permits)
    }

    /** `ServidorDTIRespaldo()`: inactive, the primary presumed alive, no
        request running, and the snapshot loaded from the backup file. */
    constructor (file: BackupFile, now: int)
      ensures !active && primaryAlive && lastBeat == now && server == null && !workerRunning
      ensures GateOf() == Gate(0, MaxConcurrent) && Balanced(GateOf())
      ensures backup == LoadBackup(file) && backupFile == file
    {
      var recs: seq<Entry<string, Json>> := [];
      if file.FileRows? && |file.rows| > 0 && |file.rows[0]| >= 8 {
        var rows := file.rows[1..];
        var i := 0;
        while i < |rows|
          invariant 0 <= i <= |rows|
          invariant recs == LoadRows(rows[..i])
        {
          assert rows[..i + 1][..i] == rows[..i];
          var row := rows[i];
          if |row| >= 8 {
            recs := Put(recs, row[0], RowRecord(row));
          }
          i := i + 1;
        }
        assert rows[..|rows|] == rows;
      }
      active := false;
      primaryAlive := true;
      lastBeat := now;
      server := null;
      workerRunning := false;
      activeRequests := 0;
      permits := MaxConcurrent;
      backup := JObj([Entry("aulas", JObj(recs))]);
      backupFile := file;
    }

    /** A heartbeat arrived: its time is recorded and the primary is alive
        again; an active standby stays active. */
    method Beat(now: int)
      modifies this
      ensures primaryAlive && lastBeat == now
      ensures active == old(active) && server == old(server) && workerRunning == old(workerRunning)
      ensures GateOf() == old(GateOf()) && backup == old(backup) && backupFile == old(backupFile)
    {
      lastBeat := now;
      if !primaryAlive {
        primaryAlive := true;
      }
    }

    /** No heartbeat within the timeout: the first such turn marks the
        primary dead and, unless already active, activates the standby; later
        turns change nothing until a heartbeat returns. */
    method Timeout(load: Option<seq<Room>>, store: Store) returns (sent: seq<seq<Frame>>)
      modifies this
      ensures !primaryAlive && (old(active) ==> active)
      ensures lastBeat == old(lastBeat) && GateOf() == old(GateOf()) && backup == old(backup) && backupFile == old(backupFile)
      ensures !old(primaryAlive) || old(active) ==>
        active == old(active) && server == old(server) && workerRunning == old(workerRunning) && sent == []
      ensures old(primaryAlive) && !old(active) && load.None? ==>
        !active && server == old(server) && workerRunning == old(workerRunning) && sent == []
      ensures old(primaryAlive) && !old(active) && load.Some? ==>
        active && workerRunning && server != null && fresh(server) && server.rooms == FromRows(load.value) && sent == [[Ready]]
    {
      sent := [];
      if primaryAlive {
        primaryAlive := false;
        if !active {
          sent := Activate(load, store);
        }
      }
    }

    /** `activar_servidor`.  `load` is what `ServidorDTI()` reads from the
        room file (`None` when it raises, and then nothing changes).  The
        snapshot merge runs before the standby is marked active, so it
        returns at once and the new server starts from the room file alone;
        then the worker starts and announces itself with `READY`. */
    method Activate(load: Option<seq<Room>>, store: Store) returns (sent: seq<seq<Frame>>)
      requires !active
      modifies this
      ensures primaryAlive == old(primaryAlive) && lastBeat == old(lastBeat)
      ensures GateOf() == old(GateOf()) && backup == old(backup) && backupFile == old(backupFile)
      ensures load.None? ==> !active && server == old(server) && workerRunning == old(workerRunning) && sent == []
      ensures load.Some? ==>
        active && workerRunning && server != null && fresh(server)
        && server.rooms == FromRows(load.value) && server.stored == load.value && server.Valid()
        && sent == [[Ready]]
    {
      if load.None? {
        return [];
      }
      var s := new RoomServer(load.value);
      server := s;
      Merge(store);
      active := true;
      workerRunning := true;
      sent := [[Ready]];
    }

    /** `actualizar_estado_servidor`: only an active standby with a server
        merges.  Without `aulas` in the snapshot the table is saved as it is;
        with an object of records they are merged in order, and the table is
        saved only when every record applied; anything else raises before
        the table changes. */
    method Merge(store: Store)
      modifies server
      ensures server != null && active && AulasOf(backup).NoAulas? ==>
        server.rooms == old(server.rooms)
        && server.stored == (if store.Stored? then Values(server.rooms) else old(server.stored))
      ensures server != null && active && AulasOf(backup).Records? ==>
        var m := MergeAll(old(server.rooms), ReadRecords(AulasOf(backup).recs));
        && server.rooms == m.0
        && server.stored == (if m.1 && store.Stored? then Values(m.0) else old(server.stored))
      ensures server != null && (!active || AulasOf(backup).NotAMapping? || AulasOf(backup).Unreadable?) ==>
        server.rooms == old(server.rooms) && server.stored == old(server.stored)
    {
      if server == null || !active {
        return;
      }
      var a := AulasOf(backup);
      if a.NotAMapping? || a.Unreadable? {
        return;
      }
      if a.Records? {
        var ok := MergeRecords(server, ReadRecords(a.recs));
        if !ok {
          return;
        }
      }
      server.Save(store);
    }

    /** The record loop of `actualizar_estado`: records are merged in order
        until one fails to apply. */
    static method MergeRecords(target: RoomServer, rs: FieldRecords) returns (ok: bool)
      modifies target
      ensures (target.rooms, ok) == MergeAll(old(target.rooms), rs)
      ensures target.stored == old(target.stored)
    {
      var t0 := target.rooms;
      var i := 0;
      ok := true;
      while i < |rs| && ok
        invariant 0 <= i <= |rs|
        invariant (target.rooms, ok) == MergePrefix(t0, rs, i)
        invariant target.stored == old(target.stored)
      {
        MergeUnfold(t0, rs, i + 1);
        var u := MergeOne(target.rooms, rs[i].key, rs[i].val);
        target.rooms, ok := u.0, u.1;
        i := i + 1;
      }
      if !ok {
        MergeStuck(t0, rs, i, |rs|);
      }
    }

    /** `guardar_estado_respaldo_desde_json`, record by record. */
    method WriteFromSnapshot()
      modifies this
      ensures backupFile == SnapshotFile(backup, old(backupFile))
      ensures active == old(active) && primaryAlive == old(primaryAlive) && lastBeat == old(lastBeat)
      ensures server == old(server) && workerRunning == old(workerRunning) && GateOf() == old(GateOf()) && backup == old(backup)
    {
      var a := AulasOf(backup);
      if a.NotAMapping? {
        backupFile := FileRows([Header]);
      } else if a.Records? {
        var out, _ := SnapshotRows(RecordRows(a.recs));
        backupFile := FileRows([Header] + out);
      }
    }

    /** `guardar_estado_respaldo`: the server's rooms, one row each. */
    method WriteFromServer()
      modifies this
      ensures server != null ==> backupFile == ServerFile(server.rooms)
      ensures server == null ==> backupFile == old(backupFile)
      ensures active == old(active) && primaryAlive == old(primaryAlive) && lastBeat == old(lastBeat)
      ensures server == old(server) && workerRunning == old(workerRunning) && GateOf() == old(GateOf()) && backup == old(backup)
    {
      if server == null {
        return;
      }
      var t := server.rooms;
      var out: Csv := [];
      var i := 0;
      while i < |t|
        invariant 0 <= i <= |t|
        invariant out == TableRows(t[..i])
      {
        assert TableRows(t[..i + 1]) == TableRows(t[..i]) + [RoomRow(t[i].val)];
        out := out + [RoomRow(t[i].val)];
        i := i + 1;
      }
      assert t[..|t|] == t;
      backupFile := FileRows([Header] + out);
    }

    /** `procesar_mensaje_sinc`: a message that is JSON replaces the
        snapshot, is merged into the server when the standby is active, and
        is written to the backup file; anything else is dropped. */
    method ProcessSync(codec: Codec, msg: Frame, store: Store)
      modifies this, server
      ensures active == old(active) && primaryAlive == old(primaryAlive) && lastBeat == old(lastBeat)
      ensures server == old(server) && workerRunning == old(workerRunning) && GateOf() == old(GateOf())
      ensures !codec.decode(msg).Parsed? ==>
        backup == old(backup) && backupFile == old(backupFile)
        && (server != null ==> server.rooms == old(server.rooms) && server.stored == old(server.stored))
      ensures codec.decode(msg).Parsed? ==>
        backup == codec.decode(msg).value && backupFile == SnapshotFile(backup, old(backupFile))
      ensures codec.decode(msg).Parsed? && server != null && active && AulasOf(backup).NoAulas? ==>
        server.rooms == old(server.rooms)
        && server.stored == (if store.Stored? then Values(server.rooms) else old(server.stored))
      ensures codec.decode(msg).Parsed? && server != null && active && AulasOf(backup).Records? ==>
        var m := MergeAll(old(server.rooms), ReadRecords(AulasOf(backup).recs));
        && server.rooms == m.0
        && server.stored == (if m.1 && store.Stored? then Values(m.0) else old(server.stored))
      ensures codec.decode(msg).Parsed? && server != null && active && !AulasOf(backup).NoAulas? && !AulasOf(backup).Records? ==>
        server.rooms == old(server.rooms) && server.stored == old(server.stored)
      ensures server != null && !active ==> server.rooms == old(server.rooms) && server.stored == old(server.stored)
    {
      var d := codec.decode(msg);
      if !d.Parsed? {
        return;
      }
      backup := d.value;
      if active && server != null {
        Merge(store);
      }
      WriteFromSnapshot();
    }

    /** `procesar_solicitud` on a payload that is text.  An inactive standby
        sends nothing.  Otherwise text that is not JSON and JSON that is not
        an object are answered with an error; an object is allocated by the
        server, answered, the backup file rewritten from the server's rooms,
        and `READY` sent last. */
    method HandleRequest(codec: Codec, client: Frame, payload: Frame, now: string, store: Store)
      returns (sent: seq<seq<Frame>>)
      requires !codec.decode(payload).NotText?
      modifies this, server
      ensures active == old(active) && primaryAlive == old(primaryAlive) && lastBeat == old(lastBeat)
      ensures server == old(server) && workerRunning == old(workerRunning) && GateOf() == old(GateOf()) && backup == old(backup)
      ensures server == null ==> sent == [] && backupFile == old(backupFile)
      ensures server != null ==>
        Served(sent, server.rooms, server.stored, backupFile)
        == Serve(codec, client, payload, now, store, active, old(server.rooms), old(server.stored), old(backupFile))
      ensures !active && server != null ==>
        sent == [] && server.rooms == old(server.rooms) && server.stored == old(server.stored) && backupFile == old(backupFile)
      ensures active && server != null && codec.decode(payload).NotJson? ==>
        sent == ErrorSends(codec, client, "Formato de solicitud inválido")
        && server.rooms == old(server.rooms) && server.stored == old(server.stored) && backupFile == old(backupFile)
      ensures active && server != null && codec.decode(payload).Parsed? && !codec.decode(payload).value.JObj? ==>
        sent == ErrorSends(codec, client, "Error procesando solicitud: '" + TypeName(codec.decode(payload).value) + "' object has no attribute 'get'")
        && server.rooms == old(server.rooms) && server.stored == old(server.stored) && backupFile == old(backupFile)
      ensures active && server != null && codec.decode(payload).Parsed? && codec.decode(payload).value.JObj? ==>
        var a := Assign(RequestOf(codec.decode(payload).value), old(server.rooms), now, store);
        && server.rooms == a.table
        && server.stored == (if a.saved then Values(server.rooms) else old(server.stored))
        && sent == [[Empty, client, Empty, codec.encode(ReplyJson(a.reply))], [Ready]]
        && backupFile == ServerFile(server.rooms)
      ensures old(server) != null && old(server.Valid()) ==> server.Valid()
    {
      if !active || server == null {
        return [];
      }
      var d := codec.decode(payload);
      if d.NotJson? {
        return ErrorSends(codec, client, "Formato de solicitud inválido");
      }
      var j := d.value;
      if !j.JObj? {
        return ErrorSends(codec, client, "Error procesando solicitud: '" + TypeName(j) + "' object has no attribute 'get'");
      }
      var reply := server.Allocate(RequestOf(j), now, store);
      sent := [[Empty, client, Empty, codec.encode(ReplyJson(reply))]];
      WriteFromServer();
      sent := sent + [[Ready]];
    }

    /** `procesar_solicitud_con_tracking`: the request, then, whatever
        happened, the count falls and the permit is released. */
    method TrackedRequest(codec: Codec, client: Frame, payload: Frame, now: string, store: Store)
      returns (sent: seq<seq<Frame>>)
      requires !codec.decode(payload).NotText?
      modifies this, server
      ensures GateOf() == Finished(old(GateOf()))
      ensures old(Balanced(GateOf())) && old(activeRequests) > 0 ==> Balanced(GateOf())
      ensures active == old(active) && primaryAlive == old(primaryAlive) && lastBeat == old(lastBeat)
      ensures server == old(server) && workerRunning == old(workerRunning) && backup == old(backup)
      ensures server == null ==> sent == [] && backupFile == old(backupFile)
      ensures server != null ==>
        Served(sent, server.rooms, server.stored, backupFile)
        == Serve(codec, client, payload, now, store, active, old(server.rooms), old(server.stored), old(backupFile))
    {
      sent := HandleRequest(codec, client, payload, now, store);
      activeRequests := activeRequests - 1;
      permits := permits + 1;
      if Balanced(old(GateOf())) && old(activeRequests) > 0 {
        FinishedBalanced(old(GateOf()));
      }
    }

    /** One turn of `hilo_worker`, with the release corrected (see
        `TurnAsWritten`).  A message is taken only when a permit is free; one
        of at least four frames is admitted: it holds the permit and its
        payload goes to a request of its own, unless the payload is not
        UTF-8, which ends the worker with the permit still taken. */
    method PollOnce(codec: Codec, message: Option<seq<Frame>>)
      returns (consumed: bool, started: Option<(Frame, Frame)>)
      modifies this
      ensures active == old(active) && server == old(server) && backup == old(backup) && backupFile == old(backupFile)
      ensures !old(active) || !old(workerRunning) ==>
        !consumed && started == None && GateOf() == old(GateOf()) && workerRunning == old(workerRunning)
      ensures old(active) && old(workerRunning) ==>
        consumed == (old(permits) > 0 && message.Some?)
        && var admitted := consumed && |message.value| >= 4;
        && GateOf() == Turn(old(GateOf()), admitted)
        && (workerRunning <==> !(admitted && codec.decode(message.value[3]).NotText?))
        && started == (if admitted && workerRunning then Some((message.value[1], message.value[3])) else None)
      ensures old(Balanced(GateOf())) ==> Balanced(GateOf())
    {
      consumed, started := false, None;
      if !active || !workerRunning {
        return;
      }
      ghost var g := GateOf();
      var acquired := permits > 0;
      if acquired {
        permits := permits - 1;
      }
      var admitted := false;
      if acquired && message.Some? {
        consumed := true;
        var frames := message.value;
        if |frames| >= 4 {
          activeRequests := activeRequests + 1;
          admitted := true;
          if codec.decode(frames[3]).NotText? {
            workerRunning := false;
            if Balanced(g) { TurnBalanced(g, true); }
            return;
          }
          started := Some((frames[1], frames[3]));
        }
      }
      if acquired && !admitted {
        permits := permits + 1;
      }
      if Balanced(g) { TurnBalanced(g, admitted); }
    }

    /** The console command `limpiar`: the server's rooms reset and saved,
        then the backup file rewritten. */
    method Clean(store: Store)
      modifies this, server
      ensures server == old(server)
      ensures server != null ==>
        server.rooms == ClearedTable(old(server.rooms)) && backupFile == ServerFile(server.rooms)
      ensures server == null ==> backupFile == old(backupFile)
    {
      if server != null {
        Reset(server, store);
        WriteFromServer();
      }
    }
  }
}
