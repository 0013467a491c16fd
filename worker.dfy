/** One pass of the background job worker of app.py over a batch of claimed jobs. The file
    holds two versions of the worker (app.py:208-239 and app.py:486-529) that differ only in
    failure texts and progress values, so the model takes the version as a parameter.
    A provider (Replicate, Hugging Face or the local stub) is an abstract function from the
    record to an outcome: a path, nothing, or a raised error. */
module Worker {
  import opened Wrappers
  import opened JsonText
  import opened Tables
  import opened Queries
  import opened Storage
  import Ordering

  datatype Version = V1 | V2

  datatype Provider = GenAI | HuggingFace | Local

  /** What a provider call gave back. A `Path("")` is falsy and counts as no result. */
  datatype Outcome = Path(path: string) | NoResult | Raised(message: string)

  /** `get_pending_jobs(c, limit=5)` */
  const BatchSize := 5

  function MissingText(version: Version): string {
    if version == V1 then "artifact missing" else "artifact not found"
  }

  function NoResultText(version: Version): string {
    if version == V1 then "no result" else "no result from provider"
  }

  /** The progress written just before the provider call: none in the first version. */
  function CallProgress(version: Version, provider: Provider): Option<int> {
    if version == V1 then None else if provider == GenAI then Some(15) else Some(10)
  }

  /** The progress written with a failure: left alone in the first version, reset to 0 in
      the second. */
  function FailedProgress(version: Version): Option<int> {
    if version == V1 then None else Some(0)
  }

  predicate Delivered(outcome: Outcome) {
    outcome.Path? && outcome.path != []
  }

  function FailureText(version: Version, outcome: Outcome): string {
    if outcome.Raised? then outcome.message else NoResultText(version)
  }

  /** `GENAI_PROVIDER` as the value of a Python expression: None when unset. */
  function EnvJson(env: Option<string>): Json {
    if env.Some? then JStr(env.value) else JNull
  }

  /** `params.get('method') or GENAI_PROVIDER` for a decoded params object. */
  function MethodOr(members: seq<Member>, env: Option<string>): Json {
    var given := Lookup(members, "method");
    if given.Some? && Truthy(given.value) then given.value else EnvJson(env)
  }

  /** The method a job asks for, or None when working it out raises: the job's params text
      is not JSON, or is JSON without a `get` (not an object). That expression stands
      outside the `try`, so the exception ends the worker thread. */
  function ResolveMethod(params: string, env: Option<string>): (r: Option<Json>)
    ensures r.None? <==> params != [] && (Decode(params).None? || !Decode(params).value.JObj?)
  {
    if params == [] then Some(EnvJson(env))
    else match Decode(params)
      case Some(JObj(members)) => Some(MethodOr(members, env))
      case _ => None
  }

  /** `'replicate'` goes to GenAI, `'huggingface'` and `'hf'` to Hugging Face, anything
      else, None included, to the local stub. */
  function ChooseProvider(chosen: Json): (p: Provider)
    ensures p == GenAI <==> chosen == JStr("replicate")
    ensures p == HuggingFace <==> chosen == JStr("huggingface") || chosen == JStr("hf")
    ensures p == Local <==> chosen !in {JStr("replicate"), JStr("huggingface"), JStr("hf")}
  {
    if chosen == JStr("replicate") then GenAI
    else if chosen == JStr("huggingface") || chosen == JStr("hf") then HuggingFace
    else Local
  }

  /** The store after the provider answered for job `id` on record `rec`. */
  function Finish(db: Db, version: Version, id: nat, rec: Record, outcome: Outcome, now: string): Db {
    if Delivered(outcome) then
      var path := outcome.path;
      var d := Inserted(db, rec.(reconstructionPath := Some(path)));
      JobUpdated(d, id, Some("succeeded"), Some(path), Some(100), now).0
    else
      JobUpdated(db, id, Some("failed"), Some(FailureText(version, outcome)), FailedProgress(version), now).0
  }

  /** The body of the worker's `for job in pending` loop for one claim: the store after it,
      and whether an exception escaped and ended the thread. */
  function ProcessJob(db: Db, version: Version, env: Option<string>,
                      call: (Provider, Record) -> Outcome, now: string, c: Claim): (Db, bool)
  {
    var running := JobUpdated(db, c.id, Some("running"), None, Some(5), now).0;
    match GetArtifact(running.artifacts, c.artifactId)
    case Unreadable => (running, true)
    case Missing =>
      (JobUpdated(running, c.id, Some("failed"), Some(MissingText(version)), None, now).0, false)
    case Found(rec) =>
      match ResolveMethod(c.params, env)
      case None => (running, true)
      case Some(chosen) =>
        var provider := ChooseProvider(chosen);
        var called := JobUpdated(running, c.id, None, None, CallProgress(version, provider), now).0;
        (Finish(called, version, c.id, rec, call(provider, rec), now), false)
  }

  /** The claims in order, stopping at the first that ends the thread. */
  function RunBatch(db: Db, version: Version, env: Option<string>,
                    call: (Provider, Record) -> Outcome, now: string, claims: seq<Claim>): (Db, bool)
  {
    if claims == [] then (db, false)
    else
      var (d, crashed) := RunBatch(db, version, env, call, now, claims[..|claims| - 1]);
      if crashed then (d, true) else ProcessJob(d, version, env, call, now, claims[|claims| - 1])
  }

  /** One job, as the loop body does it, on the store object. */
  method RunJob(store: Store, version: Version, env: Option<string>,
                call: (Provider, Record) -> Outcome, now: string, c: Claim) returns (crashed: bool)
    modifies store
    ensures (store.State(), crashed) == ProcessJob(old(store.State()), version, env, call, now, c)
  {
    var _ := store.UpdateJob(c.id, Some("running"), None, Some(5), now);
    var fetched := GetArtifact(store.artifacts, c.artifactId);
    match fetched {
      case Unreadable =>
        return true;
      case Missing =>
        var _ := store.UpdateJob(c.id, Some("failed"), Some(MissingText(version)), None, now);
        return false;
      case Found(rec) =>
        var chosen := ResolveMethod(c.params, env);
        if chosen.None? {
          return true;
        }
        CallAndFinish(store, version, call, now, c.id, rec, ChooseProvider(chosen.value));
        return false;
    }
  }

  /** The `try` block of one job once its provider is chosen: the progress note (v2 only),
      the call, and the row written for its outcome. */
  method CallAndFinish(store: Store, version: Version, call: (Provider, Record) -> Outcome,
                       now: string, id: nat, rec: Record, provider: Provider)
    modifies store
    ensures store.State() == Finish(JobUpdated(old(store.State()), id, None, None, CallProgress(version, provider), now).0,
                                    version, id, rec, call(provider, rec), now)
  {
    if version == V2 {
      var _ := store.UpdateJob(id, None, None, CallProgress(version, provider), now);
    }
    var outcome := call(provider, rec);
    if Delivered(outcome) {
      store.InsertArtifact(rec.(reconstructionPath := Some(outcome.path)));
      var _ := store.UpdateJob(id, Some("succeeded"), Some(outcome.path), Some(100), now);
    } else if outcome.Raised? {
      var _ := store.UpdateJob(id, Some("failed"), Some(outcome.message), FailedProgress(version), now);
    } else {
      var _ := store.UpdateJob(id, Some("failed"), Some(NoResultText(version)), FailedProgress(version), now);
    }
  }

  /** The batch up to claim `k` included is the batch before it, then claim `k` unless the
      thread has already died. */
  lemma BatchStep(db: Db, version: Version, env: Option<string>,
                  call: (Provider, Record) -> Outcome, now: string, claims: seq<Claim>, k: nat)
    requires k < |claims|
    ensures var (d, crashed) := RunBatch(db, version, env, call, now, claims[..k]);
      RunBatch(db, version, env, call, now, claims[..k + 1])
        == if crashed then (d, true) else ProcessJob(d, version, env, call, now, claims[k])
  {
    assert claims[..k + 1][..k] == claims[..k];
  }

  /** The `for job in pending` loop: each claim in turn; an exception outside the `try`
      ends the loop and the thread. */
  method RunClaims(store: Store, version: Version, env: Option<string>,
                   call: (Provider, Record) -> Outcome, now: string, pending: seq<Claim>)
    returns (crashed: bool)
    modifies store
    ensures (store.State(), crashed) == RunBatch(old(store.State()), version, env, call, now, pending)
  {
    var i := 0;
    crashed := false;
    while i < |pending|
      invariant 0 <= i <= |pending|
      invariant RunBatch(old(store.State()), version, env, call, now, pending[..i]) == (store.State(), false)
    {
      BatchStep(old(store.State()), version, env, call, now, pending, i);
      crashed := RunJob(store, version, env, call, now, pending[i]);
      if crashed {
        BatchStops(old(store.State()), version, env, call, now, pending, i + 1);
        return;
      }
      i := i + 1;
    }
    assert pending[..i] == pending;
  }

  /** One pass of `worker()`: claim up to five open jobs, oldest first, and run them. */
  method WorkerPass(store: Store, version: Version, env: Option<string>,
                    call: (Provider, Record) -> Outcome, now: string) returns (crashed: bool)
    modifies store
    ensures (store.State(), crashed)
         == RunBatch(old(store.State()), version, env, call, now, GetPendingJobs(old(store.jobs), BatchSize))
  {
    var pending := GetPendingJobs(store.jobs, BatchSize);
    crashed := RunClaims(store, version, env, call, now, pending);
  }

  // ---------------------------------------------------------------------------------------
  // One job

  /** What one job may change, from `db` to `d`: the counter stays, the change log only
      grows, no job row other than `id`'s changes, `id`'s row neither appears nor
      disappears, and no artifact other than `aid` changes. */
  ghost predicate Touches(db: Db, d: Db, id: nat, aid: string) {
    && d.jobSeq == db.jobSeq
    && db.changes <= d.changes
    && (forall k :: k != id ==> GetJob(d.jobs, k) == GetJob(db.jobs, k))
    && (GetJob(d.jobs, id).Some? <==> GetJob(db.jobs, id).Some?)
    && (forall a :: a != aid ==> GetArtifact(d.artifacts, a) == GetArtifact(db.artifacts, a))
  }

  lemma TouchesTrans(db: Db, d: Db, e: Db, id: nat, aid: string)
    requires Touches(db, d, id, aid) && Touches(d, e, id, aid)
    ensures Touches(db, e, id, aid)
  {
  }

  /** A write through `update_job` touches only its job. */
  lemma UpdateTouches(db: Db, id: nat, status: Option<string>, result: Option<string>,
                      progress: Option<int>, now: string, aid: string)
    ensures Touches(db, JobUpdated(db, id, status, result, progress, now).0, id, aid)
  {
    UpdateJobEffect(db, id, status, result, progress, now);
  }

  /** What a job ends as when the thread goes on: failed, or succeeded with a non-empty
      path and progress 100. */
  predicate Settled(job: Option<Job>) {
    && job.Some?
    && (|| job.value.status == "failed"
        || (job.value.status == "succeeded" && job.value.result.Some?
            && job.value.result.value != [] && job.value.progress == 100))
  }

  lemma FinishFrame(db: Db, version: Version, id: nat, rec: Record, outcome: Outcome, now: string)
    ensures Touches(db, Finish(db, version, id, rec, outcome, now), id, rec.id)
  {
    if Delivered(outcome) {
      var r := rec.(reconstructionPath := Some(outcome.path));
      InsertThenGet(db, r);
      UpdateTouches(Inserted(db, r), id, Some("succeeded"), Some(outcome.path), Some(100), now, rec.id);
    } else {
      UpdateTouches(db, id, Some("failed"), Some(FailureText(version, outcome)), FailedProgress(version), now, rec.id);
    }
  }

  /** A job touches its own row only; the counter stays, the change log only grows, and
      only its own artifact may change. */
  lemma ProcessJobFrame(db: Db, version: Version, env: Option<string>,
                        call: (Provider, Record) -> Outcome, now: string, c: Claim)
    ensures Touches(db, ProcessJob(db, version, env, call, now, c).0, c.id, c.artifactId)
  {
    var running := JobUpdated(db, c.id, Some("running"), None, Some(5), now).0;
    UpdateTouches(db, c.id, Some("running"), None, Some(5), now, c.artifactId);
    var d := ProcessJob(db, version, env, call, now, c).0;
    match GetArtifact(running.artifacts, c.artifactId)
    case Unreadable =>
    case Missing =>
      UpdateTouches(running, c.id, Some("failed"), Some(MissingText(version)), None, now, c.artifactId);
      TouchesTrans(db, running, d, c.id, c.artifactId);
    case Found(rec) =>
      match ResolveMethod(c.params, env)
      case None =>
      case Some(chosen) =>
        var provider := ChooseProvider(chosen);
        var called := JobUpdated(running, c.id, None, None, CallProgress(version, provider), now).0;
        UpdateTouches(running, c.id, None, None, CallProgress(version, provider), now, c.artifactId);
        FinishFrame(called, version, c.id, rec, call(provider, rec), now);
        assert d == Finish(called, version, c.id, rec, call(provider, rec), now);
        TouchesTrans(db, running, called, c.id, c.artifactId);
        TouchesTrans(db, called, d, c.id, c.artifactId);
  }

  /** The thread ends exactly when the artifact's stored JSON does not read back, or the
      job's params do not give a method; the job is then left running at 5%. A missing
      artifact fails the job with the version's text, progress still 5, and writes no
      artifact. */
  lemma ProcessJobStops(db: Db, version: Version, env: Option<string>,
                        call: (Provider, Record) -> Outcome, now: string, c: Claim)
    requires GetJob(db.jobs, c.id).Some?
    ensures var (d, crashed) := ProcessJob(db, version, env, call, now, c);
      var fetched := GetArtifact(db.artifacts, c.artifactId);
      && GetJob(d.jobs, c.id).Some?
      && (crashed <==> fetched.Unreadable? || (fetched.Found? && ResolveMethod(c.params, env).None?))
      && (crashed ==>
            && d.artifacts == db.artifacts && d.changes == db.changes
            && GetJob(d.jobs, c.id).value.status == "running"
            && GetJob(d.jobs, c.id).value.progress == 5)
      && (fetched.Missing? ==>
            && d.artifacts == db.artifacts && d.changes == db.changes
            && GetJob(d.jobs, c.id).value.status == "failed"
            && GetJob(d.jobs, c.id).value.result == Some(MissingText(version))
            && GetJob(d.jobs, c.id).value.progress == 5)
  {
    var running := JobUpdated(db, c.id, Some("running"), None, Some(5), now).0;
    UpdateJobEffect(db, c.id, Some("running"), None, Some(5), now);
    ProcessJobFrame(db, version, env, call, now, c);
    match GetArtifact(running.artifacts, c.artifactId)
    case Unreadable =>
    case Missing =>
      UpdateJobEffect(running, c.id, Some("failed"), Some(MissingText(version)), None, now);
    case Found(rec) =>
  }

  /** With the record found and a method given, the provider's answer decides: a non-empty
      path is written into the record's `reconstruction_path` alone and the job succeeds
      with it at 100%; anything else fails the job with the error's message or the
      version's no-result text, and writes no artifact. */
  lemma ProcessJobCalled(db: Db, version: Version, env: Option<string>,
                         call: (Provider, Record) -> Outcome, now: string, c: Claim,
                         rec: Record, chosen: Json)
    requires GetJob(db.jobs, c.id).Some?
    requires GetArtifact(db.artifacts, c.artifactId) == Found(rec)
    requires ResolveMethod(c.params, env) == Some(chosen)
    ensures var (d, crashed) := ProcessJob(db, version, env, call, now, c);
      var outcome := call(ChooseProvider(chosen), rec);
      && !crashed && GetJob(d.jobs, c.id).Some?
      && (Delivered(outcome) ==>
            && GetJob(d.jobs, c.id).value.status == "succeeded"
            && GetJob(d.jobs, c.id).value.result == Some(outcome.path)
            && GetJob(d.jobs, c.id).value.progress == 100
            && GetArtifact(d.artifacts, c.artifactId) == Found(rec.(reconstructionPath := Some(outcome.path))))
      && (!Delivered(outcome) ==>
            && GetJob(d.jobs, c.id).value.status == "failed"
            && GetJob(d.jobs, c.id).value.result == Some(FailureText(version, outcome))
            && GetJob(d.jobs, c.id).value.progress == (if version == V1 then 5 else 0)
            && d.artifacts == db.artifacts && d.changes == db.changes)
  {
    var running := JobUpdated(db, c.id, Some("running"), None, Some(5), now).0;
    UpdateJobEffect(db, c.id, Some("running"), None, Some(5), now);
    var provider := ChooseProvider(chosen);
    var called := JobUpdated(running, c.id, None, None, CallProgress(version, provider), now).0;
    UpdateJobEffect(running, c.id, None, None, CallProgress(version, provider), now);
    var outcome := call(provider, rec);
    if Delivered(outcome) {
      var r := rec.(reconstructionPath := Some(outcome.path));
      InsertThenGet(called, r);
      UpdateJobEffect(Inserted(called, r), c.id, Some("succeeded"), Some(outcome.path), Some(100), now);
    } else {
      UpdateJobEffect(called, c.id, Some("failed"), Some(FailureText(version, outcome)), FailedProgress(version), now);
    }
  }

  /** A job that does not end the thread ends failed, or succeeded with a non-empty path:
      never succeeded without one. */
  lemma ProcessJobSettles(db: Db, version: Version, env: Option<string>,
                          call: (Provider, Record) -> Outcome, now: string, c: Claim)
    requires GetJob(db.jobs, c.id).Some?
    ensures var (d, crashed) := ProcessJob(db, version, env, call, now, c);
      !crashed ==> Settled(GetJob(d.jobs, c.id))
  {
    ProcessJobStops(db, version, env, call, now, c);
    match GetArtifact(db.artifacts, c.artifactId)
    case Unreadable =>
    case Missing =>
    case Found(rec) =>
      match ResolveMethod(c.params, env)
      case None =>
      case Some(chosen) =>
        ProcessJobCalled(db, version, env, call, now, c, rec, chosen);
  }

  lemma ProcessJobValid(db: Db, version: Version, env: Option<string>,
                        call: (Provider, Record) -> Outcome, now: string, c: Claim)
    requires Valid(db)
    ensures Valid(ProcessJob(db, version, env, call, now, c).0)
  {
    var running := JobUpdated(db, c.id, Some("running"), None, Some(5), now).0;
    UpdatedValid(db, c.id, Some("running"), None, Some(5), now);
    match GetArtifact(running.artifacts, c.artifactId)
    case Unreadable =>
    case Missing =>
      UpdatedValid(running, c.id, Some("failed"), Some(MissingText(version)), None, now);
    case Found(rec) =>
      match ResolveMethod(c.params, env)
      case None =>
      case Some(chosen) =>
        var provider := ChooseProvider(chosen);
        var called := JobUpdated(running, c.id, None, None, CallProgress(version, provider), now).0;
        UpdatedValid(running, c.id, None, None, CallProgress(version, provider), now);
        var outcome := call(provider, rec);
        if Delivered(outcome) {
          var r := rec.(reconstructionPath := Some(outcome.path));
          InsertedValid(called, r);
          UpdatedValid(Inserted(called, r), c.id, Some("succeeded"), Some(outcome.path), Some(100), now);
        } else {
          UpdatedValid(called, c.id, Some("failed"), Some(FailureText(version, outcome)), FailedProgress(version), now);
        }
  }

  // ---------------------------------------------------------------------------------------
  // The batch

  function ClaimIds(claims: seq<Claim>): set<nat> {
    set c | c in claims :: c.id
  }

  lemma ClaimIdsLast(claims: seq<Claim>)
    requires claims != []
    ensures ClaimIds(claims) == ClaimIds(claims[..|claims| - 1]) + {claims[|claims| - 1].id}
  {
    assert claims == claims[..|claims| - 1] + [claims[|claims| - 1]];
  }

  /** Once a claim ends the thread, the claims after it are never run. */
  lemma {:induction false} BatchStops(db: Db, version: Version, env: Option<string>,
                                      call: (Provider, Record) -> Outcome, now: string,
                                      claims: seq<Claim>, k: nat)
    requires k <= |claims|
    requires RunBatch(db, version, env, call, now, claims[..k]).1
    ensures RunBatch(db, version, env, call, now, claims) == RunBatch(db, version, env, call, now, claims[..k])
  {
    if k < |claims| {
      assert claims[..|claims| - 1][..k] == claims[..k];
      BatchStops(db, version, env, call, now, claims[..|claims| - 1], k);
    } else {
      assert claims[..k] == claims;
    }
  }

  /** What a run of jobs may change, seen from `db` to `d`: the counter stays, the change
      log only grows, no job row appears or disappears, and only the rows of `ids` change. */
  ghost predicate Framed(db: Db, d: Db, ids: set<nat>) {
    && d.jobSeq == db.jobSeq
    && db.changes <= d.changes
    && (forall k :: k !in ids ==> GetJob(d.jobs, k) == GetJob(db.jobs, k))
    && (forall k :: GetJob(d.jobs, k).Some? <==> GetJob(db.jobs, k).Some?)
  }

  /** One more job, framed as `ProcessJobFrame` says, extends a frame by its id. */
  lemma FramedStep(db: Db, d: Db, e: Db, ids: set<nat>, id: nat, aid: string)
    requires Framed(db, d, ids) && Touches(d, e, id, aid)
    ensures Framed(db, e, ids + {id})
  {
    forall k
      ensures GetJob(e.jobs, k).Some? <==> GetJob(db.jobs, k).Some?
    {
      if k != id {
        assert GetJob(e.jobs, k) == GetJob(d.jobs, k);
      }
    }
  }

  /** Jobs outside the batch keep their rows; the counter stays and the change log only
      grows. */
  lemma {:induction false} BatchFrame(db: Db, version: Version, env: Option<string>,
                                      call: (Provider, Record) -> Outcome, now: string,
                                      claims: seq<Claim>)
    ensures Framed(db, RunBatch(db, version, env, call, now, claims).0, ClaimIds(claims))
  {
    if claims != [] {
      var front := claims[..|claims| - 1];
      var last := claims[|claims| - 1];
      BatchFrame(db, version, env, call, now, front);
      var (d, crashed) := RunBatch(db, version, env, call, now, front);
      ClaimIdsLast(claims);
      if !crashed {
        var e := ProcessJob(d, version, env, call, now, last).0;
        ProcessJobFrame(d, version, env, call, now, last);
        FramedStep(db, d, e, ClaimIds(front), last.id, last.artifactId);
      }
    }
  }

  /** Every claimed job whose row exists ends failed, or succeeded with a path, unless the
      thread ended. */
  lemma {:induction false} BatchSettles(db: Db, version: Version, env: Option<string>,
                                        call: (Provider, Record) -> Outcome, now: string,
                                        claims: seq<Claim>)
    requires forall i, j :: 0 <= i < j < |claims| ==> claims[i].id != claims[j].id
    requires forall i :: 0 <= i < |claims| ==> GetJob(db.jobs, claims[i].id).Some?
    ensures var (d, crashed) := RunBatch(db, version, env, call, now, claims);
      !crashed ==> forall i :: 0 <= i < |claims| ==> Settled(GetJob(d.jobs, claims[i].id))
  {
    if claims != [] {
      var front := claims[..|claims| - 1];
      var last := claims[|claims| - 1];
      assert forall i :: 0 <= i < |front| ==> front[i] == claims[i];
      BatchSettles(db, version, env, call, now, front);
      BatchFrame(db, version, env, call, now, front);
      var (d, crashed) := RunBatch(db, version, env, call, now, front);
      if !crashed {
        var e := ProcessJob(d, version, env, call, now, last).0;
        assert RunBatch(db, version, env, call, now, claims) == ProcessJob(d, version, env, call, now, last);
        ProcessJobSettles(d, version, env, call, now, last);
        ProcessJobFrame(d, version, env, call, now, last);
        if !ProcessJob(d, version, env, call, now, last).1 {
          SettledKept(d, e, front, claims);
        }
      }
    }
  }

  lemma SettledKept(d: Db, e: Db, front: seq<Claim>, claims: seq<Claim>)
    requires claims != [] && front == claims[..|claims| - 1]
    requires forall i :: 0 <= i < |front| ==> Settled(GetJob(d.jobs, front[i].id))
    requires forall i :: 0 <= i < |front| ==> claims[i].id != claims[|claims| - 1].id
    requires forall k :: k != claims[|claims| - 1].id ==> GetJob(e.jobs, k) == GetJob(d.jobs, k)
    requires Settled(GetJob(e.jobs, claims[|claims| - 1].id))
    ensures forall i :: 0 <= i < |claims| ==> Settled(GetJob(e.jobs, claims[i].id))
  {
    forall i | 0 <= i < |claims|
      ensures Settled(GetJob(e.jobs, claims[i].id))
    {
      if i < |front| {
        assert front[i] == claims[i];
      }
    }
  }

  /** In a valid store, a batch whose params all give a method runs to the end, and the
      store stays valid. */
  lemma {:induction false} BatchCompletes(db: Db, version: Version, env: Option<string>,
                                          call: (Provider, Record) -> Outcome, now: string,
                                          claims: seq<Claim>)
    requires Valid(db)
    requires forall i :: 0 <= i < |claims| ==> ResolveMethod(claims[i].params, env).Some?
    ensures !RunBatch(db, version, env, call, now, claims).1
    ensures Valid(RunBatch(db, version, env, call, now, claims).0)
  {
    if claims != [] {
      var front := claims[..|claims| - 1];
      var last := claims[|claims| - 1];
      BatchCompletes(db, version, env, call, now, front);
      var d := RunBatch(db, version, env, call, now, front).0;
      ValidReadable(d, last.artifactId);
      ProcessJobValid(d, version, env, call, now, last);
    }
  }

  /** One worker pass over a valid store: five open jobs are claimed, or every open job
      when there are fewer; unless the thread
      ends each ends failed or succeeded with a path; when every job's params give a
      method the thread does not end and the store stays valid; jobs not claimed keep
      their rows. */
  lemma PassSettles(db: Db, version: Version, env: Option<string>,
                    call: (Provider, Record) -> Outcome, now: string)
    requires Valid(db)
    ensures var claims := GetPendingJobs(db.jobs, BatchSize);
      var (d, crashed) := RunBatch(db, version, env, call, now, claims);
      && |claims| == (if BatchSize < |Ordering.Filter(db.jobs, Open)| then BatchSize else |Ordering.Filter(db.jobs, Open)|)
      && (!crashed ==> forall i :: 0 <= i < |claims| ==> Settled(GetJob(d.jobs, claims[i].id)))
      && ((forall j :: 0 <= j < |db.jobs| ==> ResolveMethod(db.jobs[j].params, env).Some?) ==>
            !crashed && Valid(d))
      && (forall k :: k !in ClaimIds(claims) ==> GetJob(d.jobs, k) == GetJob(db.jobs, k))
  {
    var claims := GetPendingJobs(db.jobs, BatchSize);
    PendingClaims(db, env, claims);
    BatchSettles(db, version, env, call, now, claims);
    BatchFrame(db, version, env, call, now, claims);
    if forall j :: 0 <= j < |db.jobs| ==> ResolveMethod(db.jobs[j].params, env).Some? {
      BatchCompletes(db, version, env, call, now, claims);
    }
  }

  /** The claims of one pass in a valid store: five, or every open job when there are
      fewer, with distinct ids, each the id of a job row, and each with the params of a job
      row. */
  lemma PendingClaims(db: Db, env: Option<string>, claims: seq<Claim>)
    requires Valid(db)
    requires claims == GetPendingJobs(db.jobs, BatchSize)
    ensures |claims| == if BatchSize < |Ordering.Filter(db.jobs, Open)| then BatchSize else |Ordering.Filter(db.jobs, Open)|
    ensures forall i, j :: 0 <= i < j < |claims| ==> claims[i].id != claims[j].id
    ensures forall i :: 0 <= i < |claims| ==> GetJob(db.jobs, claims[i].id).Some?
    ensures (forall j :: 0 <= j < |db.jobs| ==> ResolveMethod(db.jobs[j].params, env).Some?) ==>
      forall i :: 0 <= i < |claims| ==> ResolveMethod(claims[i].params, env).Some?
  {
    PendingDistinct(db.jobs, BatchSize);
    PendingCount(db.jobs, BatchSize);
    forall i | 0 <= i < |claims|
      ensures exists k :: 0 <= k < |db.jobs| && claims[i] == ClaimOf(db.jobs[k])
    {
      ClaimFromJob(db.jobs, BatchSize, i);
    }
  }

  /** A job made by `create_job` never ends the thread on its params: they are the encoding
      of `params or {}`, which reads back as an object exactly when `params` is one or is
      falsy, and the method is its `method` member when truthy, else `GENAI_PROVIDER`. */
  lemma ResolveCreated(params: Json, env: Option<string>)
    ensures var stored := JobParams(params);
      var r := ResolveMethod(Encode(stored), env);
      && (r.Some? <==> stored.JObj?)
      && (stored.JObj? ==> r == Some(MethodOr(stored.members, env)))
  {
    EncodeStart(JobParams(params));
    DecodeEncode(JobParams(params));
  }
}
