/** The three tables of the SiteScan store (db.py:8-44) as values, and what each write of
    db.py does to them. The class `Storage.Store` holds these tables and performs the writes;
    the functions here are the specification its methods are proved against. */
module Tables {
  import opened Wrappers
  import opened JsonText

  /** An artifact as the application hands it to `insert_artifact` and as `get_artifact`
      gives it back: the nine columns, with labels and metadata as JSON values. */
  datatype Record = Record(
    id: string,
    filename: Option<string>,
    imagePath: Option<string>,
    qrPath: Option<string>,
    ocrText: Option<string>,
    labels: Json,
    reconstructionPath: Option<string>,
    metadata: Json,
    createdAt: Option<string>)

  /** A row of the `artifacts` table: labels and metadata are held as JSON text. */
  datatype Row = Row(
    id: string,
    filename: Option<string>,
    imagePath: Option<string>,
    qrPath: Option<string>,
    ocrText: Option<string>,
    labels: string,
    reconstructionPath: Option<string>,
    metadata: string,
    createdAt: Option<string>)

  /** A row of the append-only `changes` log. */
  datatype Change = Change(artifactId: string, changeType: string, payload: string, changedAt: string)

  /** A row of the `jobs` table. */
  datatype Job = Job(
    id: nat,
    artifactId: string,
    jobType: string,
    params: string,
    status: string,
    result: Option<string>,
    progress: int,
    createdAt: string,
    updatedAt: string)

  /** The whole store. The artifacts and the changes are listed in rowid order; `jobSeq` is
      the AUTOINCREMENT counter of the jobs table, the largest job id ever handed out. */
  datatype Db = Db(artifacts: seq<Row>, changes: seq<Change>, jobs: seq<Job>, jobSeq: nat)

  /** Python truthiness of a nullable text: neither None nor "". */
  predicate Given(t: Option<string>) {
    t.Some? && t.value != []
  }

  predicate UniqueIds(rows: seq<Row>) {
    forall i, j :: 0 <= i < j < |rows| ==> rows[i].id != rows[j].id
  }

  /** What every write of db.py keeps true: one row per artifact id, stored JSON text that
      reads back, and job ids that grow with the rowid and never pass the counter. */
  predicate Valid(db: Db) {
    && UniqueIds(db.artifacts)
    && (forall i :: 0 <= i < |db.artifacts| ==> ReadRow(db.artifacts[i]).Found?)
    && (forall i, j :: 0 <= i < j < |db.jobs| ==> db.jobs[i].id < db.jobs[j].id)
    && (forall i :: 0 <= i < |db.jobs| ==> db.jobs[i].id <= db.jobSeq)
  }

  // ---------------------------------------------------------------------------------------
  // insert_artifact (db.py:56-80)

  function TextJson(t: Option<string>): Json {
    if t.None? then JNull else JStr(t.value)
  }

  /** The record as a dictionary, keys in the order the application builds it. */
  function RecordJson(r: Record): Json {
    JObj([
      Member("id", JStr(r.id)),
      Member("filename", TextJson(r.filename)),
      Member("image_path", TextJson(r.imagePath)),
      Member("qr_path", TextJson(r.qrPath)),
      Member("ocr_text", TextJson(r.ocrText)),
      Member("labels", r.labels),
      Member("reconstruction_path", TextJson(r.reconstructionPath)),
      Member("metadata", r.metadata),
      Member("created_at", TextJson(r.createdAt))
    ])
  }

  /** The row `insert_artifact` writes for a record. */
  function StoredRow(r: Record): Row {
    Row(r.id, r.filename, r.imagePath, r.qrPath, r.ocrText, Encode(r.labels),
        r.reconstructionPath, Encode(r.metadata), r.createdAt)
  }

  /** The rows whose id is not `id`, in their order. */
  function Without(rows: seq<Row>, id: string): (r: seq<Row>)
    ensures |r| <= |rows|
    ensures forall i :: 0 <= i < |r| ==> r[i].id != id && r[i] in rows
    ensures forall i :: 0 <= i < |rows| && rows[i].id != id ==> rows[i] in r
    ensures UniqueIds(rows) ==> UniqueIds(r)
  {
    if rows == [] then []
    else
      var rest := Without(rows[1..], id);
      var r := if rows[0].id == id then rest else [rows[0]] + rest;
      assert forall x :: x in rest ==> x in rows[1..];
      r
  }

  /** INSERT OR REPLACE: the rows with the same id are deleted and the new row is added
      with a new, larger rowid. */
  function Upsert(rows: seq<Row>, row: Row): seq<Row> {
    Without(rows, row.id) + [row]
  }

  /** The change row `insert_artifact` appends for `r`. Its time is the record's own
      `created_at`, not the time of the write. */
  function ChangeOf(r: Record): Change
    requires Given(r.createdAt)
  {
    Change(r.id, "upsert", Encode(RecordJson(r)), r.createdAt.value)
  }

  /** The store after `insert_artifact(r)`. When `created_at` is falsy the change row would
      take its time from `timestamp()`, which db.py never imports: the NameError is
      swallowed and no change row is written, while the artifact write stands. */
  function Inserted(db: Db, r: Record): (d: Db)
    ensures db.changes <= d.changes
  {
    var changes := if Given(r.createdAt) then db.changes + [ChangeOf(r)] else db.changes;
    db.(artifacts := Upsert(db.artifacts, StoredRow(r)), changes := changes)
  }

  // ---------------------------------------------------------------------------------------
  // get_artifact (db.py:83-93)

  /** What `get_artifact` gives: no row, the decoded record, or an exception from
      json.loads on stored text that is not JSON. */
  datatype Fetch = Missing | Found(record: Record) | Unreadable

  /** `json.loads(text) if text else default` */
  function ReadJson(text: string, default: Json): Option<Json> {
    if text == [] then Some(default) else Decode(text)
  }

  function ReadRow(row: Row): Fetch {
    match (ReadJson(row.labels, JArr([])), ReadJson(row.metadata, JObj([])))
    case (Some(labels), Some(metadata)) =>
      Found(Record(row.id, row.filename, row.imagePath, row.qrPath, row.ocrText, labels,
                   row.reconstructionPath, metadata, row.createdAt))
    case _ => Unreadable
  }

  /** `SELECT * FROM artifacts WHERE id=?` and `fetchone()`: the first row with that id. */
  function GetArtifact(rows: seq<Row>, id: string): (f: Fetch)
    ensures f.Missing? <==> forall i :: 0 <= i < |rows| ==> rows[i].id != id
    ensures f.Found? ==> f.record.id == id
  {
    if rows == [] then Missing
    else if rows[0].id == id then ReadRow(rows[0])
    else
      var f := GetArtifact(rows[1..], id);
      assert forall i :: 1 <= i < |rows| ==> rows[i] == rows[1..][i - 1];
      f
  }

  lemma ReadStored(r: Record)
    ensures ReadRow(StoredRow(r)) == Found(r)
  {
    EncodeStart(r.labels);
    EncodeStart(r.metadata);
    DecodeEncode(r.labels);
    DecodeEncode(r.metadata);
  }

  lemma {:induction false} GetWithout(rows: seq<Row>, gone: string, id: string)
    requires gone != id
    ensures GetArtifact(Without(rows, gone), id) == GetArtifact(rows, id)
  {
    if rows != [] {
      GetWithout(rows[1..], gone, id);
    }
  }

  lemma {:induction false} GetAppend(rows: seq<Row>, row: Row, id: string)
    ensures GetArtifact(rows + [row], id)
         == if GetArtifact(rows, id).Missing? then GetArtifact([row], id) else GetArtifact(rows, id)
  {
    if rows != [] {
      assert (rows + [row])[1..] == rows[1..] + [row];
      GetAppend(rows[1..], row, id);
    }
  }

  /** Reading back after `insert_artifact(r)` gives `r` itself, labels and metadata decoded;
      every other id reads as before, and the jobs are untouched. */
  lemma InsertThenGet(db: Db, r: Record)
    ensures GetArtifact(Inserted(db, r).artifacts, r.id) == Found(r)
    ensures forall id :: id != r.id ==>
              GetArtifact(Inserted(db, r).artifacts, id) == GetArtifact(db.artifacts, id)
    ensures Inserted(db, r).jobs == db.jobs && Inserted(db, r).jobSeq == db.jobSeq
  {
    var rest := Without(db.artifacts, r.id);
    ReadStored(r);
    GetAppend(rest, StoredRow(r), r.id);
    forall id | id != r.id
      ensures GetArtifact(Inserted(db, r).artifacts, id) == GetArtifact(db.artifacts, id)
    {
      GetAppend(rest, StoredRow(r), id);
      GetWithout(db.artifacts, r.id, id);
    }
  }

  /** Each insert with a truthy `created_at` adds exactly one change row, last, and its
      payload decodes to the whole record; otherwise the log is unchanged. Earlier change
      rows are never altered. */
  lemma InsertLogsChange(db: Db, r: Record)
    ensures var d := Inserted(db, r);
      && d.changes[..|db.changes|] == db.changes
      && (!Given(r.createdAt) ==> d.changes == db.changes)
      && (Given(r.createdAt) ==>
            && |d.changes| == |db.changes| + 1
            && var c := d.changes[|db.changes|];
               && c.artifactId == r.id && c.changeType == "upsert"
               && c.changedAt == r.createdAt.value
               && Decode(c.payload) == Some(RecordJson(r)))
  {
    DecodeEncode(RecordJson(r));
  }

  lemma InsertedValid(db: Db, r: Record)
    requires Valid(db)
    ensures Valid(Inserted(db, r))
  {
    var rows := Inserted(db, r).artifacts;
    var rest := Without(db.artifacts, r.id);
    ReadStored(r);
    assert rows == rest + [StoredRow(r)];
    forall i | 0 <= i < |rows|
      ensures ReadRow(rows[i]).Found?
    {
      if i < |rest| {
        var k :| 0 <= k < |db.artifacts| && db.artifacts[k] == rest[i];
      }
    }
  }

  lemma ValidReadable(db: Db, id: string)
    requires Valid(db)
    ensures GetArtifact(db.artifacts, id) != Unreadable
  {
    ValidRowsReadable(db.artifacts, id);
  }

  lemma {:induction false} ValidRowsReadable(rows: seq<Row>, id: string)
    requires forall i :: 0 <= i < |rows| ==> ReadRow(rows[i]).Found?
    ensures GetArtifact(rows, id) != Unreadable
  {
    if rows != [] && rows[0].id != id {
      ValidRowsReadable(rows[1..], id);
    }
  }

  // ---------------------------------------------------------------------------------------
  // create_job, update_job, get_job (db.py:131-160, db.py:169-172)

  function MaxJobId(jobs: seq<Job>): (m: nat)
    ensures forall i :: 0 <= i < |jobs| ==> jobs[i].id <= m
  {
    if jobs == [] then 0
    else
      var m := MaxJobId(jobs[..|jobs| - 1]);
      var last := jobs[|jobs| - 1].id;
      if m < last then last else m
  }

  /** AUTOINCREMENT: one more than the largest id ever used or now present. */
  function NextJobId(db: Db): (id: nat)
    ensures id > db.jobSeq
    ensures forall i :: 0 <= i < |db.jobs| ==> db.jobs[i].id < id
  {
    1 + (if db.jobSeq < MaxJobId(db.jobs) then MaxJobId(db.jobs) else db.jobSeq)
  }

  /** `params or {}` */
  function JobParams(params: Json): Json {
    if Truthy(params) then params else JObj([])
  }

  /** The store after `create_job`, and the id it returns. */
  function JobCreated(db: Db, artifactId: string, jobType: string, params: Json, now: string)
    : (Db, nat)
  {
    var id := NextJobId(db);
    var job := Job(id, artifactId, jobType, Encode(JobParams(params)), "pending", None, 0, now, now);
    (db.(jobs := db.jobs + [job], jobSeq := id), id)
  }

  /** `SELECT ... FROM jobs WHERE id=?` and `fetchone()`. */
  function GetJob(jobs: seq<Job>, id: nat): (r: Option<Job>)
    ensures r.None? <==> forall i :: 0 <= i < |jobs| ==> jobs[i].id != id
    ensures r.Some? ==> r.value.id == id && r.value in jobs
  {
    if jobs == [] then None
    else if jobs[0].id == id then Some(jobs[0])
    else
      var r := GetJob(jobs[1..], id);
      assert forall i :: 1 <= i < |jobs| ==> jobs[i] == jobs[1..][i - 1];
      r
  }

  /** `create_job` hands out an id no job had, and that job reads back pending, with no
      result, progress 0, equal timestamps and the encoding of `params or {}`; nothing
      else changes. */
  lemma CreateJobFresh(db: Db, artifactId: string, jobType: string, params: Json, now: string)
    ensures var (d, id) := JobCreated(db, artifactId, jobType, params, now);
      && GetJob(db.jobs, id).None?
      && id > db.jobSeq
      && GetJob(d.jobs, id)
         == Some(Job(id, artifactId, jobType, Encode(JobParams(params)), "pending", None, 0, now, now))
      && Decode(GetJob(d.jobs, id).value.params) == Some(JobParams(params))
      && (forall k :: k != id ==> GetJob(d.jobs, k) == GetJob(db.jobs, k))
      && d.artifacts == db.artifacts && d.changes == db.changes
  {
    var (d, id) := JobCreated(db, artifactId, jobType, params, now);
    forall k
      ensures GetJob(d.jobs, k) == if GetJob(db.jobs, k).Some? then GetJob(db.jobs, k)
                                   else GetJob([d.jobs[|db.jobs|]], k)
    {
      GetJobAppend(db.jobs, d.jobs[|db.jobs|], k);
    }
    DecodeEncode(JobParams(params));
  }

  lemma {:induction false} GetJobAppend(jobs: seq<Job>, job: Job, id: nat)
    ensures GetJob(jobs + [job], id)
         == if GetJob(jobs, id).Some? then GetJob(jobs, id) else GetJob([job], id)
  {
    if jobs != [] {
      assert (jobs + [job])[1..] == jobs[1..] + [job];
      GetJobAppend(jobs[1..], job, id);
    }
  }

  lemma CreatedValid(db: Db, artifactId: string, jobType: string, params: Json, now: string)
    requires Valid(db)
    ensures Valid(JobCreated(db, artifactId, jobType, params, now).0)
  {
  }

  /** The fields `update_job` sets on a job: those given, plus `updated_at`. */
  function Patched(j: Job, status: Option<string>, result: Option<string>, progress: Option<int>,
                   now: string): Job
  {
    j.(status := if status.Some? then status.value else j.status,
       result := if result.Some? then result else j.result,
       progress := if progress.Some? then progress.value else j.progress,
       updatedAt := now)
  }

  /** `UPDATE jobs SET ... WHERE id=?` */
  function PatchJobs(jobs: seq<Job>, id: nat, status: Option<string>, result: Option<string>,
                     progress: Option<int>, now: string): (r: seq<Job>)
    ensures |r| == |jobs|
    ensures forall i :: 0 <= i < |jobs| ==> r[i].id == jobs[i].id && r[i].createdAt == jobs[i].createdAt
    ensures forall i :: 0 <= i < |jobs| && jobs[i].id != id ==> r[i] == jobs[i]
  {
    seq(|jobs|, i requires 0 <= i < |jobs| =>
      if jobs[i].id == id then Patched(jobs[i], status, result, progress, now) else jobs[i])
  }

  /** The store after `update_job`, and what it returns. */
  function JobUpdated(db: Db, id: nat, status: Option<string>, result: Option<string>,
                      progress: Option<int>, now: string): (Db, bool)
  {
    if status.None? && result.None? && progress.None? then (db, false)
    else (db.(jobs := PatchJobs(db.jobs, id, status, result, progress, now)), true)
  }

  lemma {:induction false} GetPatched(jobs: seq<Job>, id: nat, status: Option<string>,
                                      result: Option<string>, progress: Option<int>, now: string, k: nat)
    ensures GetJob(PatchJobs(jobs, id, status, result, progress, now), k)
         == if k == id && GetJob(jobs, k).Some?
            then Some(Patched(GetJob(jobs, k).value, status, result, progress, now))
            else GetJob(jobs, k)
  {
    if jobs != [] {
      var p := PatchJobs(jobs, id, status, result, progress, now);
      assert p[1..] == PatchJobs(jobs[1..], id, status, result, progress, now);
      GetPatched(jobs[1..], id, status, result, progress, now, k);
    }
  }

  /** With no field to set, `update_job` returns False and changes nothing. Otherwise it
      returns True (whether or not a job has that id) and changes exactly the given fields
      and `updated_at` of that one job: a None argument never clears a field. */
  lemma UpdateJobEffect(db: Db, id: nat, status: Option<string>, result: Option<string>,
                        progress: Option<int>, now: string)
    ensures var (d, ok) := JobUpdated(db, id, status, result, progress, now);
      && (ok <==> status.Some? || result.Some? || progress.Some?)
      && (!ok ==> d == db)
      && d.artifacts == db.artifacts && d.changes == db.changes && d.jobSeq == db.jobSeq
      && (forall k :: k != id ==> GetJob(d.jobs, k) == GetJob(db.jobs, k))
      && (GetJob(d.jobs, id).Some? <==> GetJob(db.jobs, id).Some?)
      && (ok && GetJob(db.jobs, id).Some? ==>
            var before, after := GetJob(db.jobs, id).value, GetJob(d.jobs, id).value;
            && after.id == id && after.artifactId == before.artifactId
            && after.jobType == before.jobType && after.params == before.params
            && after.createdAt == before.createdAt && after.updatedAt == now
            && after.status == (if status.Some? then status.value else before.status)
            && after.result == (if result.Some? then result else before.result)
            && after.progress == (if progress.Some? then progress.value else before.progress)
            && (before.result.Some? ==> after.result.Some?))
  {
    var (d, ok) := JobUpdated(db, id, status, result, progress, now);
    if ok {
      forall k
        ensures GetJob(d.jobs, k)
             == if k == id && GetJob(db.jobs, k).Some?
                then Some(Patched(GetJob(db.jobs, k).value, status, result, progress, now))
                else GetJob(db.jobs, k)
      {
        GetPatched(db.jobs, id, status, result, progress, now, k);
      }
    }
  }

  lemma UpdatedValid(db: Db, id: nat, status: Option<string>, result: Option<string>,
                     progress: Option<int>, now: string)
    requires Valid(db)
    ensures Valid(JobUpdated(db, id, status, result, progress, now).0)
  {
  }

  // ---------------------------------------------------------------------------------------
  // The clock of db.py

  /** Whether the name `timestamp` is bound in db.py. db.py calls it (db.py:77, db.py:132,
      db.py:141) but imports only sqlite3, json and Path (db.py:1-3); app.py's import from
      utils does not reach db.py's globals. The rest of this model passes the time in as
      `now`, the behaviour the authors evidently meant. */
  const DbImportsTimestamp := false

  /** `create_job` as written: `now = timestamp()` comes first, so when the name is
      unbound the NameError reaches the caller (None) before anything is written. */
  function JobCreatedAsWritten(db: Db, imported: bool, artifactId: string, jobType: string,
                               params: Json, now: string): Option<(Db, nat)>
  {
    if imported then Some(JobCreated(db, artifactId, jobType, params, now)) else None
  }

  /** `update_job` as written: the same call precedes even the check for an empty update. */
  function JobUpdatedAsWritten(db: Db, imported: bool, id: nat, status: Option<string>,
                               result: Option<string>, progress: Option<int>, now: string)
    : Option<(Db, bool)>
  {
    if imported then Some(JobUpdated(db, id, status, result, progress, now)) else None
  }

  /** As written, every `create_job` and every `update_job` raises, the empty update
      included, where the evident intent is a new job and a patched one; with the name
      imported they are `JobCreated` and `JobUpdated`. The first two ensures hold by the
      definition of the as-written functions, which model the unbound name as a raise on
      the first line; the lemma records the discrepancy rather than discovering it. */
  lemma TimestampUnbound(db: Db, artifactId: string, jobType: string, params: Json, id: nat,
                         status: Option<string>, result: Option<string>, progress: Option<int>,
                         now: string)
    ensures JobCreatedAsWritten(db, DbImportsTimestamp, artifactId, jobType, params, now).None?
    ensures JobUpdatedAsWritten(db, DbImportsTimestamp, id, status, result, progress, now).None?
    ensures JobCreatedAsWritten(db, true, artifactId, jobType, params, now)
         == Some(JobCreated(db, artifactId, jobType, params, now))
    ensures JobUpdatedAsWritten(db, true, id, status, result, progress, now)
         == Some(JobUpdated(db, id, status, result, progress, now))
  {
  }
}
