/** The SiteScan database as the application holds it: one object whose three tables the
    writes of db.py change in place. Each method is proved to leave the tables as the
    matching function of `Tables` or `Merge` says, and the lemmas about those functions
    carry over to the object. */
module Storage {
  import opened Wrappers
  import opened JsonText
  import opened Tables
  import opened Merge

  class Store {
    var artifacts: seq<Row>
    var changes: seq<Change>
    var jobs: seq<Job>
    var jobSeq: nat

    function State(): Db
      reads this
    {
      Db(artifacts, changes, jobs, jobSeq)
    }

    /** A fresh database: `get_conn` creates the three tables empty. */
    constructor ()
      ensures State() == Db([], [], [], 0)
      ensures Valid(State())
    {
      artifacts := [];
      changes := [];
      jobs := [];
      jobSeq := 0;
    }

    /** `insert_artifact` (db.py:56-80). */
    method InsertArtifact(r: Record)
      modifies this
      ensures State() == Inserted(old(State()), r)
      ensures old(Valid(State())) ==> Valid(State())
    {
      if Valid(State()) {
        InsertedValid(State(), r);
      }
      artifacts := Upsert(artifacts, StoredRow(r));
      if Given(r.createdAt) {
        changes := changes + [ChangeOf(r)];
      }
    }

    /** `create_job` (db.py:131-137). */
    method CreateJob(artifactId: string, jobType: string, params: Json, now: string) returns (id: nat)
      modifies this
      ensures (State(), id) == JobCreated(old(State()), artifactId, jobType, params, now)
      ensures old(Valid(State())) ==> Valid(State())
    {
      if Valid(State()) {
        CreatedValid(State(), artifactId, jobType, params, now);
      }
      id := NextJobId(State());
      var text := Encode(JobParams(params));
      jobs := jobs + [Job(id, artifactId, jobType, text, "pending", None, 0, now, now)];
      jobSeq := id;
    }

    /** `update_job` (db.py:140-160): the SET list is built one given field at a time, and
        with an empty list nothing is written. */
    method UpdateJob(id: nat, status: Option<string>, result: Option<string>, progress: Option<int>,
                     now: string) returns (ok: bool)
      modifies this
      ensures (State(), ok) == JobUpdated(old(State()), id, status, result, progress, now)
      ensures old(Valid(State())) ==> Valid(State())
    {
      if Valid(State()) {
        UpdatedValid(State(), id, status, result, progress, now);
      }
      var parts: seq<string> := [];
      if status.Some? {
        parts := parts + ["status=?"];
      }
      if result.Some? {
        parts := parts + ["result=?"];
      }
      if progress.Some? {
        parts := parts + ["progress=?"];
      }
      if parts == [] {
        return false;
      }
      jobs := PatchJobs(jobs, id, status, result, progress, now);
      return true;
    }

    /** `merge_db_file` (db.py:175-199): each foreign row whose id is absent is inserted
        through `InsertArtifact`; a read that raises ends the merge with False. `convert`
        is how a foreign row becomes a record: `ImportRecord` as db.py does it,
        `ImportRecordDecoded` as it evidently intends. */
    method MergeDbFile(snapshot: Snapshot, convert: ForeignRow -> Record) returns (ok: bool)
      modifies this
      ensures (State(), ok) == Merged(old(State()), snapshot, convert)
      ensures old(Valid(State())) ==> Valid(State()) && (ok <==> snapshot.Rows?)
    {
      if Valid(State()) {
        MergeAnswer(State(), snapshot, convert);
      }
      if snapshot.Corrupt? {
        return false;
      }
      var rows := snapshot.rows;
      var i := 0;
      while i < |rows|
        invariant 0 <= i <= |rows|
        invariant MergeRows(old(State()), rows[..i], convert) == (State(), true)
      {
        assert rows[..i + 1][..i] == rows[..i];
        var f := rows[i];
        match GetArtifact(artifacts, f.id) {
          case Unreadable =>
            MergeStops(old(State()), rows, i + 1, convert);
            return false;
          case Found(_) =>
          case Missing =>
            InsertArtifact(convert(f));
        }
        i := i + 1;
      }
      assert rows[..i] == rows;
      return true;
    }
  }
}
