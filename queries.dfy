/** The read queries of db.py: each keeps the rows a WHERE clause selects, orders them by a
    timestamp column and applies the LIMIT. None of them changes the store. */
module Queries {
  import opened Wrappers
  import opened JsonText
  import opened Text
  import opened Ordering
  import opened Tables
  import opened Seqs

  /** The four columns `list_artifacts` and `search_artifacts` select. */
  datatype Summary = Summary(id: string, filename: Option<string>, imagePath: Option<string>,
                             createdAt: Option<string>)

  /** The four columns `get_pending_jobs` selects: what the worker claims. */
  datatype Claim = Claim(id: nat, artifactId: string, jobType: string, params: string)

  function SummaryOf(row: Row): Summary {
    Summary(row.id, row.filename, row.imagePath, row.createdAt)
  }

  function CreatedKey(row: Row): Key {
    row.createdAt
  }

  function ChangedKey(c: Change): Key {
    Some(c.changedAt)
  }

  function JobCreatedKey(j: Job): Key {
    Some(j.createdAt)
  }

  function ClaimOf(j: Job): Claim {
    Claim(j.id, j.artifactId, j.jobType, j.params)
  }

  // ---------------------------------------------------------------------------------------
  // list_artifacts (db.py:96-99)

  function ListArtifacts(rows: seq<Row>, limit: int): seq<Summary> {
    Map(Take(SortBy(rows, CreatedKey, true), limit), SummaryOf)
  }

  // ---------------------------------------------------------------------------------------
  // search_artifacts (db.py:102-119)

  /** The text `"<key>": "<value>"` the site and spot filters look for in the metadata. */
  function FieldPattern(key: string, value: string): string {
    Quote(key) + ": " + ['"'] + value + ['"']
  }

  /** The WHERE clause: every filter that is given (a non-empty text) must hold. The query
      matches the id, the filename or the metadata text; a NULL filename matches nothing. */
  predicate Matches(row: Row, query: Option<string>, site: Option<string>, spot: Option<string>) {
    && (Given(query) ==>
          || Contains(row.id, query.value)
          || (row.filename.Some? && Contains(row.filename.value, query.value))
          || Contains(row.metadata, query.value))
    && (Given(site) ==> Contains(row.metadata, FieldPattern("site", site.value)))
    && (Given(spot) ==> Contains(row.metadata, FieldPattern("spot", spot.value)))
  }

  /** The WHERE clause of one search, as a test on rows. */
  function Matcher(query: Option<string>, site: Option<string>, spot: Option<string>): Row -> bool {
    row => Matches(row, query, site, spot)
  }

  function SearchArtifacts(rows: seq<Row>, query: Option<string>, site: Option<string>,
                           spot: Option<string>, limit: int): seq<Summary>
  {
    Map(Searched(rows, query, site, spot, limit), SummaryOf)
  }

  /** The rows the WHERE clause keeps, ordered and limited, before projection. */
  function Searched(rows: seq<Row>, query: Option<string>, site: Option<string>,
                    spot: Option<string>, limit: int): seq<Row>
  {
    Take(SortBy(Filter(rows, Matcher(query, site, spot)), CreatedKey, true), limit)
  }

  /** At most `limit` rows come back, newest `created_at` first. */
  lemma SearchOrdered(rows: seq<Row>, query: Option<string>, site: Option<string>,
                      spot: Option<string>, limit: int)
    ensures var r := SearchArtifacts(rows, query, site, spot, limit);
      && (limit >= 0 ==> |r| <= limit)
      && forall i, j :: 0 <= i < j < |r| ==> KeyLe(r[j].createdAt, r[i].createdAt)
  {
    var t := Searched(rows, query, site, spot, limit);
    TopRows(Filter(rows, Matcher(query, site, spot)), CreatedKey, true, limit, t);
  }

  /** Exactly `limit` rows come back, or every matching row when there are no more than
      `limit` of them (or the limit is negative). */
  lemma SearchComplete(rows: seq<Row>, query: Option<string>, site: Option<string>,
                       spot: Option<string>, limit: int)
    ensures var r := SearchArtifacts(rows, query, site, spot, limit);
      var matching := Filter(rows, Matcher(query, site, spot));
      && |r| == (if 0 <= limit < |matching| then limit else |matching|)
      && ((limit < 0 || |matching| <= limit) ==>
            forall row :: row in rows && Matches(row, query, site, spot) ==> SummaryOf(row) in r)
  {
    var t := Searched(rows, query, site, spot, limit);
    var m := Matcher(query, site, spot);
    SelectedAllProjected(rows, m, CreatedKey, true, limit, SummaryOf, t);
    forall row | row in rows && Matches(row, query, site, spot)
      ensures m(row)
    {
    }
  }

  /** Only rows meeting every given filter come back. */
  lemma SearchSound(rows: seq<Row>, query: Option<string>, site: Option<string>,
                    spot: Option<string>, limit: int)
    ensures var r := SearchArtifacts(rows, query, site, spot, limit);
      forall i :: 0 <= i < |r| ==>
        exists row :: row in rows && Matches(row, query, site, spot) && r[i] == SummaryOf(row)
  {
    var t := Searched(rows, query, site, spot, limit);
    var r := SearchArtifacts(rows, query, site, spot, limit);
    var m := Matcher(query, site, spot);
    Selected(rows, m, CreatedKey, true, limit, t);
    forall i | 0 <= i < |r|
      ensures exists row :: row in rows && Matches(row, query, site, spot) && r[i] == SummaryOf(row)
    {
      assert t[i] in rows && m(t[i]);
      assert r[i] == SummaryOf(t[i]);
    }
  }

  /** No matching row is left out while a newer one is listed. */
  lemma SearchNewestFirst(rows: seq<Row>, query: Option<string>, site: Option<string>,
                          spot: Option<string>, limit: int)
    ensures var r := SearchArtifacts(rows, query, site, spot, limit);
      forall row, i ::
        (row in rows && Matches(row, query, site, spot) && SummaryOf(row) !in r && 0 <= i < |r|)
        ==> KeyLe(row.createdAt, r[i].createdAt)
  {
    var t := Searched(rows, query, site, spot, limit);
    var r := SearchArtifacts(rows, query, site, spot, limit);
    var m := Matcher(query, site, spot);
    SelectedFirstProjected(rows, m, CreatedKey, true, limit, SummaryOf, t);
    forall row, i | row in rows && Matches(row, query, site, spot) && SummaryOf(row) !in r && 0 <= i < |r|
      ensures KeyLe(row.createdAt, r[i].createdAt)
    {
      assert m(row);
      assert InOrder(CreatedKey(t[i]), CreatedKey(row), true);
    }
  }

  lemma {:induction false} FilterAll<T>(s: seq<T>, p: T -> bool)
    requires forall i :: 0 <= i < |s| ==> p(s[i])
    ensures Filter(s, p) == s
  {
    if s != [] {
      FilterAll(s[1..], p);
      assert s == [s[0]] + s[1..];
    }
  }

  /** With no filter given the search is the plain listing. */
  lemma SearchWithoutFilters(rows: seq<Row>, query: Option<string>, site: Option<string>,
                             spot: Option<string>, limit: int)
    requires !Given(query) && !Given(site) && !Given(spot)
    ensures SearchArtifacts(rows, query, site, spot, limit) == ListArtifacts(rows, limit)
  {
    FilterAll(rows, Matcher(query, site, spot));
  }

  /** `list_artifacts`: at most `limit` rows (all of them for a negative limit), newest
      `created_at` first, each the summary of a row of the table, and no row left out is
      newer than one listed. */
  lemma ListArtifactsSpec(rows: seq<Row>, limit: int)
    ensures var r := ListArtifacts(rows, limit);
      && (0 <= limit <= |rows| ==> |r| == limit)
      && (limit < 0 || |rows| <= limit ==> |r| == |rows|)
      && (forall i, j :: 0 <= i < j < |r| ==> KeyLe(r[j].createdAt, r[i].createdAt))
      && (forall i :: 0 <= i < |r| ==> exists row :: row in rows && r[i] == SummaryOf(row))
      && (forall row, i :: row in rows && SummaryOf(row) !in r && 0 <= i < |r| ==>
            KeyLe(row.createdAt, r[i].createdAt))
  {
    var t := Take(SortBy(rows, CreatedKey, true), limit);
    var r := ListArtifacts(rows, limit);
    TopRows(rows, CreatedKey, true, limit, t);
    TopRowsProjected(rows, CreatedKey, true, limit, SummaryOf, t);
    forall i, j | 0 <= i < j < |r|
      ensures KeyLe(r[j].createdAt, r[i].createdAt)
    {
      assert InOrder(CreatedKey(t[i]), CreatedKey(t[j]), true);
    }
    forall i | 0 <= i < |r|
      ensures exists row :: row in rows && r[i] == SummaryOf(row)
    {
      assert t[i] in rows;
    }
    forall row, i | row in rows && SummaryOf(row) !in r && 0 <= i < |r|
      ensures KeyLe(row.createdAt, r[i].createdAt)
    {
      assert InOrder(CreatedKey(t[i]), CreatedKey(row), true);
    }
  }

  // The site and spot filters find what the application stored

  /** Text that `json.dumps` writes as it is: printable ASCII without the quote and the
      backslash. Every other character (a control character, anything beyond ASCII) is
      written as an escape, and the filter's pattern no longer matches it. */
  predicate Plain(s: string) {
    forall i :: 0 <= i < |s| ==> ' ' <= s[i] <= '~' && s[i] != '"' && s[i] != '\\'
  }

  lemma {:induction false} EscapePlain(s: string)
    requires Plain(s)
    ensures Escape(s) == s
  {
    if s != [] {
      EscapePlain(s[1..]);
      assert s == [s[0]] + s[1..];
    }
  }

  lemma {:induction false} MembersContain(ms: seq<Member>, k: nat)
    requires k < |ms|
    ensures Contains(EncodeMembers(ms), EncodeMember(ms[k]))
  {
    var a := EncodeMember(ms[0]);
    if |ms| == 1 {
      ContainsItself(a);
    } else {
      var rest := EncodeMembers(ms[1..]);
      assert EncodeMembers(ms) == a + ", " + rest;
      if k == 0 {
        ContainsItself(a);
        ContainsInside([], a, ", " + rest, a);
        Assoc(a, ", ", rest);
        assert [] + a == a;
      } else {
        MembersContain(ms[1..], k - 1);
        assert ms[1..][k - 1] == ms[k];
        ContainsInside(a + ", ", rest, [], EncodeMember(ms[k]));
        assert a + ", " + rest + [] == a + ", " + rest;
      }
    }
  }

  /** A metadata object with `key` set to a plain text `v` is found by the filter for
      `key = v`. */
  lemma FieldFound(ms: seq<Member>, k: nat, key: string, v: string)
    requires k < |ms| && ms[k] == Member(key, JStr(v)) && Plain(v)
    ensures Contains(Encode(JObj(ms)), FieldPattern(key, v))
  {
    EscapePlain(v);
    assert EncodeMember(ms[k]) == FieldPattern(key, v);
    MembersContain(ms, k);
    ContainsInside("{", EncodeMembers(ms), "}", FieldPattern(key, v));
  }

  /** Searching with no limit for the site an artifact was recorded at finds it, when the
      site name holds no character the JSON text escapes. */
  lemma SiteSearchFinds(rows: seq<Row>, r: Record, ms: seq<Member>, k: nat, v: string)
    requires StoredRow(r) in rows
    requires r.metadata == JObj(ms) && k < |ms| && ms[k] == Member("site", JStr(v)) && Plain(v)
    ensures SummaryOf(StoredRow(r)) in SearchArtifacts(rows, None, Some(v), None, -1)
  {
    FieldFound(ms, k, "site", v);
    var row := StoredRow(r);
    assert Matches(row, None, Some(v), None);
    var kept := Filter(rows, Matcher(None, Some(v), None));
    var i :| 0 <= i < |rows| && rows[i] == row;
    assert row in kept;
    var t := SortBy(kept, CreatedKey, true);
    assert row in multiset(t);
    var j :| 0 <= j < |t| && t[j] == row;
    assert SearchArtifacts(rows, None, Some(v), None, -1)[j] == SummaryOf(row);
  }

  // ---------------------------------------------------------------------------------------
  // list_changes (db.py:122-128)

  predicate ChangeOfArtifact(c: Change, artifactId: Option<string>) {
    !Given(artifactId) || c.artifactId == artifactId.value
  }

  function OfArtifact(artifactId: Option<string>): Change -> bool {
    c => ChangeOfArtifact(c, artifactId)
  }

  function ListChanges(changes: seq<Change>, artifactId: Option<string>, limit: int): seq<Change> {
    Take(SortBy(Filter(changes, OfArtifact(artifactId)), ChangedKey, true), limit)
  }

  /** The change rows of the artifact (of every artifact when none is given): exactly
      `limit` of them, or all of them when there are no more than `limit` (or the limit is
      negative); latest `changed_at` first, none left out later than one listed. */
  lemma ListChangesSpec(changes: seq<Change>, artifactId: Option<string>, limit: int)
    ensures var r := ListChanges(changes, artifactId, limit);
      var matching := Filter(changes, OfArtifact(artifactId));
      && |r| == (if 0 <= limit < |matching| then limit else |matching|)
      && ((limit < 0 || |matching| <= limit) ==>
            forall c :: c in changes && ChangeOfArtifact(c, artifactId) ==> c in r)
      && (forall i :: 0 <= i < |r| ==> r[i] in changes && ChangeOfArtifact(r[i], artifactId))
      && (forall i, j :: 0 <= i < j < |r| ==> TextLe(r[j].changedAt, r[i].changedAt))
      && (forall c, i ::
            (c in changes && ChangeOfArtifact(c, artifactId) && c !in r && 0 <= i < |r|)
            ==> TextLe(c.changedAt, r[i].changedAt))
  {
    var r := ListChanges(changes, artifactId, limit);
    TopRows(Filter(changes, OfArtifact(artifactId)), ChangedKey, true, limit, r);
    Selected(changes, OfArtifact(artifactId), ChangedKey, true, limit, r);
    SelectedFirst(changes, OfArtifact(artifactId), ChangedKey, true, limit, r);
    SelectedAll(changes, OfArtifact(artifactId), ChangedKey, true, limit, r);
    forall c, i | c in changes && ChangeOfArtifact(c, artifactId) && c !in r && 0 <= i < |r|
      ensures TextLe(c.changedAt, r[i].changedAt)
    {
      assert InOrder(ChangedKey(r[i]), ChangedKey(c), true);
    }
  }

  // ---------------------------------------------------------------------------------------
  // get_pending_jobs (db.py:163-166)

  predicate Open(j: Job) {
    j.status == "pending" || j.status == "running"
  }

  function GetPendingJobs(jobs: seq<Job>, limit: int): seq<Claim> {
    Map(PendingJobs(jobs, limit), ClaimOf)
  }

  /** The jobs `get_pending_jobs` returns, before projection to claims. */
  function PendingJobs(jobs: seq<Job>, limit: int): seq<Job> {
    Take(SortBy(Filter(jobs, Open), JobCreatedKey, false), limit)
  }

  /** Only pending or running jobs, never succeeded or failed ones: exactly `limit` of
      them, or all of them when there are no more than `limit` (or the limit is negative);
      oldest `created_at` first, and no open job left out is older than one returned. */
  lemma PendingSpec(jobs: seq<Job>, limit: int)
    ensures var r := PendingJobs(jobs, limit);
      && |r| == (if 0 <= limit < |Filter(jobs, Open)| then limit else |Filter(jobs, Open)|)
      && ((limit < 0 || |Filter(jobs, Open)| <= limit) ==> forall job :: job in jobs && Open(job) ==> job in r)
      && multiset(r) <= multiset(jobs)
      && (forall i :: 0 <= i < |r| ==> r[i] in jobs && Open(r[i]))
      && (forall i, j :: 0 <= i < j < |r| ==> TextLe(r[i].createdAt, r[j].createdAt))
      && (forall job, i :: job in jobs && Open(job) && job !in r && 0 <= i < |r| ==>
            TextLe(r[i].createdAt, job.createdAt))
  {
    var r := PendingJobs(jobs, limit);
    TopRows(Filter(jobs, Open), JobCreatedKey, false, limit, r);
    Selected(jobs, Open, JobCreatedKey, false, limit, r);
    SelectedFirst(jobs, Open, JobCreatedKey, false, limit, r);
    SelectedAll(jobs, Open, JobCreatedKey, false, limit, r);
    forall job, i | job in jobs && Open(job) && job !in r && 0 <= i < |r|
      ensures TextLe(r[i].createdAt, job.createdAt)
    {
      assert InOrder(JobCreatedKey(r[i]), JobCreatedKey(job), false);
    }
  }

  /** As many claims as `PendingSpec` gives jobs. */
  lemma PendingCount(jobs: seq<Job>, limit: int)
    ensures |GetPendingJobs(jobs, limit)| == if 0 <= limit < |Filter(jobs, Open)| then limit else |Filter(jobs, Open)|
  {
    SelectedAll(jobs, Open, JobCreatedKey, false, limit, PendingJobs(jobs, limit));
  }

  /** Each claim is the claim of a row of the table. */
  lemma ClaimFromJob(jobs: seq<Job>, limit: int, i: nat)
    requires i < |GetPendingJobs(jobs, limit)|
    ensures exists k :: 0 <= k < |jobs| && GetPendingJobs(jobs, limit)[i] == ClaimOf(jobs[k])
  {
    var picked := PendingJobs(jobs, limit);
    Selected(jobs, Open, JobCreatedKey, false, limit, picked);
    var k :| 0 <= k < |jobs| && jobs[k] == picked[i];
  }

  /** When job ids are distinct, so are the ids one call returns. */
  lemma PendingDistinct(jobs: seq<Job>, limit: int)
    requires forall i, j :: 0 <= i < j < |jobs| ==> jobs[i].id < jobs[j].id
    ensures var c := GetPendingJobs(jobs, limit);
      forall i, j :: 0 <= i < j < |c| ==> c[i].id != c[j].id
  {
    var r := PendingJobs(jobs, limit);
    var c := GetPendingJobs(jobs, limit);
    var kept := Filter(jobs, Open);
    TopRows(kept, JobCreatedKey, false, limit, r);
    assert multiset(r) <= multiset(jobs) by {
      assert multiset(r) <= multiset(kept) && multiset(kept) <= multiset(jobs);
    }
    assert NoDuplicates(jobs);
    SubMultisetNoDuplicates(jobs, r);
    DistinctClaimIds(jobs, r, c);
  }

  /** Distinct rows of a table with increasing ids have distinct claim ids. */
  lemma DistinctClaimIds(jobs: seq<Job>, r: seq<Job>, c: seq<Claim>)
    requires forall i, j :: 0 <= i < j < |jobs| ==> jobs[i].id < jobs[j].id
    requires multiset(r) <= multiset(jobs) && NoDuplicates(r)
    requires c == Map(r, ClaimOf)
    ensures forall i, j :: 0 <= i < j < |c| ==> c[i].id != c[j].id
  {
    forall i, j | 0 <= i < j < |c|
      ensures c[i].id != c[j].id
    {
      assert r[i] in multiset(r) && r[j] in multiset(r);
      var a :| 0 <= a < |jobs| && jobs[a] == r[i];
      var b :| 0 <= b < |jobs| && jobs[b] == r[j];
      assert a != b;
    }
  }
}
