/** The edits of the artifact detail view: saving the OCR text, adding a note,
    regenerating the reconstruction and submitting a GenAI job. Each writes through
    `insert_artifact` or `create_job`. The first version of the page (app.py:132-160)
    performs them on every click and always shows the GenAI button; the second
    (app.py:422-468) performs them only when `can_edit` holds (app.py:352) and shows the
    GenAI button only when Replicate is configured. */
module Edits {
  import opened Wrappers
  import opened JsonText
  import opened Tables
  import opened Merge
  import opened Storage
  import opened Worker

  // ---------------------------------------------------------------------------------------
  // Notes (app.py:143-146, app.py:438-441)

  /** The current notes when they are text that counts as true, else "". */
  function NotesOf(members: seq<Member>): string {
    var current := Lookup(members, "notes");
    if current.Some? && current.value.JStr? then current.value.s else ""
  }

  /** The metadata after adding `note`, or None when the expression raises: metadata that
      is not an object has no `get`, and truthy notes that are not text cannot be added to
      a string. */
  function AddNote(metadata: Json, note: string): (r: Option<Json>)
    ensures r.Some? <==>
      && metadata.JObj?
      && var current := Lookup(metadata.members, "notes");
         current.None? || !Truthy(current.value) || current.value.JStr?
    ensures r.Some? ==> r.value.JObj?
    ensures r.Some? ==>
      Lookup(r.value.members, "notes")
        == Some(JStr(if NotesOf(metadata.members) == [] then note
                     else NotesOf(metadata.members) + "\n" + note))
    ensures r.Some? ==> forall k :: k != "notes" ==> Lookup(r.value.members, k) == Lookup(metadata.members, k)
  {
    if !metadata.JObj? then None
    else
      var current := Lookup(metadata.members, "notes");
      if current.Some? && Truthy(current.value) then
        if current.value.JStr? then
          Some(JObj(Assign(metadata.members, "notes", JStr(current.value.s + "\n" + note))))
        else None
      else Some(JObj(Assign(metadata.members, "notes", JStr(note))))
  }

  /** Notes accumulate: after `a` and then `b` on metadata without notes, the notes read
      `a`, a newline, `b` (when `a` is not empty). */
  lemma AddTwoNotes(members: seq<Member>, a: string, b: string)
    requires !HasKey(members, "notes")
    requires a != []
    ensures var once := AddNote(JObj(members), a);
      && once.Some?
      && var twice := AddNote(once.value, b);
         && twice.Some?
         && Lookup(twice.value.members, "notes") == Some(JStr(a + "\n" + b))
  {
  }

  /** A note added to a record that came in through the merge fails: its metadata was
      stored as JSON text, so it reads back as a string, not an object. */
  lemma NoteAfterMergeFails(f: ForeignRow, note: string)
    requires f.metadata.Some?
    ensures AddNote(ImportRecord(f).metadata, note).None?
  {
  }

  /** With the decoded import the merged record takes a note exactly as the record it was
      copied from does. */
  lemma NoteAfterDecodedMerge(r: Record, note: string)
    ensures AddNote(ImportRecordDecoded(ForeignOf(StoredRow(r))).metadata, note) == AddNote(r.metadata, note)
  {
    ImportDecodedRoundTrip(r);
  }

  // ---------------------------------------------------------------------------------------
  // The gate (app.py:345-352)

  /** `AUTH_PASSWORD is None or edit_pw == AUTH_PASSWORD` */
  predicate CanEdit(configured: Option<string>, entered: string) {
    configured.None? || entered == configured.value
  }

  /** Whether a click on an edit button writes: always on the first page, behind the gate
      on the second. */
  predicate Allowed(version: Version, configured: Option<string>, entered: string) {
    version == V1 || CanEdit(configured, entered)
  }

  /** The edit form is open to everyone exactly when no password is configured; with one,
      exactly its holder passes. */
  lemma CanEditExactly(configured: Option<string>)
    ensures configured.None? <==> forall entered :: CanEdit(configured, entered)
    ensures configured.Some? ==> forall entered :: CanEdit(configured, entered) <==> entered == configured.value
  {
    if configured.Some? {
      var other := configured.value + "x";
      assert !CanEdit(configured, other);
    }
  }

  // ---------------------------------------------------------------------------------------
  // The edits as store transitions

  /** Save OCR (app.py:423-429): the record with its OCR text replaced, written back. */
  function OcrSaved(db: Db, id: string, edited: string): Db {
    match GetArtifact(db.artifacts, id)
    case Found(rec) => Inserted(db, rec.(ocrText := Some(edited)))
    case _ => db
  }

  /** Add note (app.py:436-445): the record with the note added to its metadata. */
  function NoteAdded(db: Db, id: string, note: string): Db {
    match GetArtifact(db.artifacts, id)
    case Found(rec) =>
      (match AddNote(rec.metadata, note)
       case Some(metadata) => Inserted(db, rec.(metadata := metadata))
       case None => db)
    case _ => db
  }

  /** What `reconstruct_stub` (utils.py:94-107) does for the page: it returns the path it
      saved the image to, or raises when the stored image cannot be opened or the file
      cannot be written. */
  datatype Stub = Saved(path: string) | StubRaised(message: string)

  /** Regenerate reconstruction (app.py:450-457): the record with the path the local stub
      gave, written back; when the stub raises, the handler stops before the write. */
  function Regenerated(db: Db, id: string, stub: Stub): Db {
    match GetArtifact(db.artifacts, id)
    case Found(rec) =>
      (match stub
       case Saved(path) => Inserted(db, rec.(reconstructionPath := Some(path)))
       case StubRaised(_) => db)
    case _ => db
  }

  /** The environment the GenAI button depends on. */
  datatype GenAIConfig = GenAIConfig(provider: Option<string>, token: Option<string>,
                                     modelVersion: Option<string>)

  /** The second page shows the button only for Replicate with a token and a model
      version (app.py:461). */
  predicate GenAIOffered(config: GenAIConfig) {
    config.provider == Some("replicate") && Given(config.token) && Given(config.modelVersion)
  }

  /** Whether the GenAI button is on the page at all. */
  predicate Offered(version: Version, config: GenAIConfig) {
    version == V1 || GenAIOffered(config)
  }

  /** `{'method': GENAI_PROVIDER}` */
  function SubmitParams(config: GenAIConfig): Json {
    JObj([Member("method", EnvJson(config.provider))])
  }

  /** Generate AI reconstruction: a `genai_reconstruct` job for the artifact, and its
      id. */
  function Submitted(db: Db, version: Version, id: string, config: GenAIConfig, now: string)
    : (Db, Option<nat>)
  {
    if GetArtifact(db.artifacts, id).Found? && Offered(version, config) then
      var (d, jobId) := JobCreated(db, id, "genai_reconstruct", SubmitParams(config), now);
      (d, Some(jobId))
    else (db, None)
  }

  /** Saving OCR changes that record's OCR text and nothing else; other artifacts and the
      jobs are untouched, and an absent id writes nothing. */
  lemma OcrSavedReads(db: Db, id: string, edited: string)
    ensures var d := OcrSaved(db, id, edited);
      && (GetArtifact(db.artifacts, id).Found? ==>
            GetArtifact(d.artifacts, id) == Found(GetArtifact(db.artifacts, id).record.(ocrText := Some(edited))))
      && (!GetArtifact(db.artifacts, id).Found? ==> d == db)
      && (forall other :: other != id ==> GetArtifact(d.artifacts, other) == GetArtifact(db.artifacts, other))
      && d.jobs == db.jobs
  {
    if GetArtifact(db.artifacts, id).Found? {
      InsertThenGet(db, GetArtifact(db.artifacts, id).record.(ocrText := Some(edited)));
    }
  }

  /** A note reads back from the stored record: the notes grow by the note and every other
      metadata key and record field stays. */
  lemma NoteAddedReads(db: Db, id: string, note: string)
    requires GetArtifact(db.artifacts, id).Found?
    requires AddNote(GetArtifact(db.artifacts, id).record.metadata, note).Some?
    ensures var rec := GetArtifact(db.artifacts, id).record;
      var after := GetArtifact(NoteAdded(db, id, note).artifacts, id);
      && after.Found?
      && after.record == rec.(metadata := after.record.metadata)
      && after.record.metadata.JObj?
      && Lookup(after.record.metadata.members, "notes")
           == Some(JStr(if NotesOf(rec.metadata.members) == [] then note
                        else NotesOf(rec.metadata.members) + "\n" + note))
      && forall k :: k != "notes" ==> Lookup(after.record.metadata.members, k) == Lookup(rec.metadata.members, k)
  {
    var rec := GetArtifact(db.artifacts, id).record;
    InsertThenGet(db, rec.(metadata := AddNote(rec.metadata, note).value));
  }

  /** Regenerating sets only the reconstruction path of that record, to the path the stub
      saved; a stub that raises, or a record that is not there, leaves the store as it was. */
  lemma RegeneratedReads(db: Db, id: string, stub: Stub)
    ensures GetArtifact(db.artifacts, id).Found? && stub.Saved? ==>
      GetArtifact(Regenerated(db, id, stub).artifacts, id)
        == Found(GetArtifact(db.artifacts, id).record.(reconstructionPath := Some(stub.path)))
    ensures !GetArtifact(db.artifacts, id).Found? || stub.StubRaised? ==> Regenerated(db, id, stub) == db
  {
    if GetArtifact(db.artifacts, id).Found? && stub.Saved? {
      InsertThenGet(db, GetArtifact(db.artifacts, id).record.(reconstructionPath := Some(stub.path)));
    }
  }

  /** A submitted job is a new pending job for the artifact. When the worker takes it up,
      the method is the provider the page had, or, when that was unset or empty, the
      worker's own `GENAI_PROVIDER`; so a job from the second page always goes to the
      GenAI provider. */
  lemma SubmittedRoutes(db: Db, version: Version, id: string, config: GenAIConfig, now: string,
                        env: Option<string>)
    requires GetArtifact(db.artifacts, id).Found? && Offered(version, config)
    ensures var (d, jobId) := Submitted(db, version, id, config, now);
      && jobId.Some?
      && (forall i :: 0 <= i < |db.jobs| ==> db.jobs[i].id != jobId.value)
      && GetJob(d.jobs, jobId.value).Some?
      && var job := GetJob(d.jobs, jobId.value).value;
         && job.artifactId == id && job.status == "pending" && job.jobType == "genai_reconstruct"
         && ResolveMethod(job.params, env)
              == Some(if Given(config.provider) then JStr(config.provider.value) else EnvJson(env))
         && (GenAIOffered(config) ==> ChooseProvider(ResolveMethod(job.params, env).value) == GenAI)
  {
    var params := SubmitParams(config);
    var (d, jobId) := JobCreated(db, id, "genai_reconstruct", params, now);
    assert Submitted(db, version, id, config, now) == (d, Some(jobId));
    CreateJobFresh(db, id, "genai_reconstruct", params, now);
    SubmitParamsMethod(config, env);
  }

  /** The stored params of a submitted job give the page's provider as the method, or the
      worker's own when the page has none. */
  lemma SubmitParamsMethod(config: GenAIConfig, env: Option<string>)
    ensures var r := ResolveMethod(Encode(JobParams(SubmitParams(config))), env);
      && r == Some(if Given(config.provider) then JStr(config.provider.value) else EnvJson(env))
      && (GenAIOffered(config) ==> ChooseProvider(r.value) == GenAI)
  {
    var params := SubmitParams(config);
    ResolveCreated(params, env);
    assert Lookup(params.members, "method") == Some(EnvJson(config.provider));
  }

  // ---------------------------------------------------------------------------------------
  // The edits on the store object

  /** Save OCR: behind the gate, the record as read is written back with the new text. */
  method SaveOcr(store: Store, version: Version, configured: Option<string>, entered: string, id: string, edited: string)
    modifies store
    ensures store.State() == if Allowed(version, configured, entered) then OcrSaved(old(store.State()), id, edited)
                             else old(store.State())
  {
    var fetched := GetArtifact(store.artifacts, id);
    if fetched.Found? && Allowed(version, configured, entered) {
      store.InsertArtifact(fetched.record.(ocrText := Some(edited)));
    }
  }

  /** Add note: behind the gate; nothing is written when the note cannot be added. */
  method AddNoteAction(store: Store, version: Version, configured: Option<string>, entered: string, id: string, note: string)
    modifies store
    ensures store.State() == if Allowed(version, configured, entered) then NoteAdded(old(store.State()), id, note)
                             else old(store.State())
  {
    var fetched := GetArtifact(store.artifacts, id);
    if fetched.Found? && Allowed(version, configured, entered) {
      var metadata := AddNote(fetched.record.metadata, note);
      if metadata.Some? {
        store.InsertArtifact(fetched.record.(metadata := metadata.value));
      }
    }
  }

  /** Regenerate reconstruction: behind the gate; `stub` is what the local stub did. */
  method Regenerate(store: Store, version: Version, configured: Option<string>, entered: string, id: string,
                    stub: Stub)
    modifies store
    ensures store.State() == if Allowed(version, configured, entered) then Regenerated(old(store.State()), id, stub)
                             else old(store.State())
  {
    var fetched := GetArtifact(store.artifacts, id);
    if fetched.Found? && Allowed(version, configured, entered) && stub.Saved? {
      store.InsertArtifact(fetched.record.(reconstructionPath := Some(stub.path)));
    }
  }

  /** Generate AI reconstruction: offered only when Replicate is configured, and behind the
      gate. */
  method SubmitReconstruction(store: Store, version: Version, configured: Option<string>, entered: string, id: string,
                              config: GenAIConfig, now: string) returns (jobId: Option<nat>)
    modifies store
    ensures (store.State(), jobId)
         == if Allowed(version, configured, entered) then Submitted(old(store.State()), version, id, config, now)
            else (old(store.State()), None)
  {
    jobId := None;
    var fetched := GetArtifact(store.artifacts, id);
    if fetched.Found? && Offered(version, config) && Allowed(version, configured, entered) {
      var created := store.CreateJob(id, "genai_reconstruct", SubmitParams(config), now);
      jobId := Some(created);
    }
  }
}
