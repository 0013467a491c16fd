/** `merge_db_file` (db.py:175-199): the artifacts of another SiteScan database are copied
    into this one, first writer wins. The merge is specified over the conversion it applies
    to a foreign row, so that the conversion db.py performs (`ImportRecord`) and the one it
    evidently intends (`ImportRecordDecoded`) share every lemma about the merge itself. */
module Merge {
  import opened Wrappers
  import opened JsonText
  import opened Tables

  /** A row of the foreign `artifacts` table: every column as stored, labels and metadata as
      raw, nullable text. */
  datatype ForeignRow = ForeignRow(
    id: string,
    filename: Option<string>,
    imagePath: Option<string>,
    qrPath: Option<string>,
    ocrText: Option<string>,
    labels: Option<string>,
    reconstructionPath: Option<string>,
    metadata: Option<string>,
    createdAt: Option<string>)

  /** The other file as the merge finds it: one sqlite3 cannot open or query (the exception
      is caught and the merge returns False), or the rows of its artifacts table. */
  datatype Snapshot = Corrupt | Rows(rows: seq<ForeignRow>)

  /** The foreign row of a row another store wrote. */
  function ForeignOf(row: Row): ForeignRow {
    ForeignRow(row.id, row.filename, row.imagePath, row.qrPath, row.ocrText, Some(row.labels),
               row.reconstructionPath, Some(row.metadata), row.createdAt)
  }

  /** The value the merge leaves in the record for labels or metadata (db.py:187-194): the
      raw text itself, or `fallback` when `json.loads(text or fallback)` raises. A text is
      then encoded by `insert_artifact` as a JSON string, and None as null. */
  function KeptText(t: Option<string>, fallback: string): (v: Json)
    ensures t.Some? ==> v.JStr?
    ensures t.None? ==> v == JNull
  {
    match t
    case None => JNull
    case Some(s) => if s == [] || Decode(s).Some? then JStr(s) else JStr(fallback)
  }

  /** The record db.py hands to `insert_artifact` for a foreign row. */
  function ImportRecord(f: ForeignRow): Record {
    Record(f.id, f.filename, f.imagePath, f.qrPath, f.ocrText, KeptText(f.labels, "[]"),
           f.reconstructionPath, KeptText(f.metadata, "{}"), f.createdAt)
  }

  /** The value `get_artifact` on the foreign database would give: the decoded text, the
      default for NULL or empty text, and the default again for text that is not JSON. */
  function DecodedText(t: Option<string>, default: Json): Json {
    if t.None? then default
    else match ReadJson(t.value, default)
      case Some(v) => v
      case None => default
  }

  /** The conversion the merge evidently intends: the record reads back as it did in the
      database it came from. */
  function ImportRecordDecoded(f: ForeignRow): Record {
    Record(f.id, f.filename, f.imagePath, f.qrPath, f.ocrText, DecodedText(f.labels, JArr([])),
           f.reconstructionPath, DecodedText(f.metadata, JObj([])), f.createdAt)
  }

  // ---------------------------------------------------------------------------------------
  // The merge

  /** One foreign row: skipped when its id is present, inserted when absent. A present row
      whose stored text json.loads rejects raises inside `get_artifact`; the exception
      ends the merge, which returns False. */
  function MergeStep(db: Db, f: ForeignRow, convert: ForeignRow -> Record): (Db, bool) {
    match GetArtifact(db.artifacts, f.id)
    case Unreadable => (db, false)
    case Missing => (Inserted(db, convert(f)), true)
    case Found(_) => (db, true)
  }

  /** The rows in order; each insert is committed as it happens, so the rows merged before
      a failure stay merged. */
  function MergeRows(db: Db, rows: seq<ForeignRow>, convert: ForeignRow -> Record): (Db, bool) {
    if rows == [] then (db, true)
    else
      var (d, ok) := MergeRows(db, rows[..|rows| - 1], convert);
      if !ok then (d, false) else MergeStep(d, rows[|rows| - 1], convert)
  }

  /** The store after `merge_db_file`, and what it returns. */
  function Merged(db: Db, snapshot: Snapshot, convert: ForeignRow -> Record): (Db, bool) {
    match snapshot
    case Corrupt => (db, false)
    case Rows(rows) => MergeRows(db, rows, convert)
  }

  /** The first foreign row with that id: the one whose copy wins. */
  function FirstWith(rows: seq<ForeignRow>, id: string): (r: Option<ForeignRow>)
    ensures r.Some? ==> r.value in rows && r.value.id == id
    ensures r.None? ==> forall i :: 0 <= i < |rows| ==> rows[i].id != id
  {
    if rows == [] then None
    else
      var front := FirstWith(rows[..|rows| - 1], id);
      if front.Some? then front
      else if rows[|rows| - 1].id == id then Some(rows[|rows| - 1])
      else None
  }

  ghost predicate Imports(convert: ForeignRow -> Record) {
    forall f :: convert(f).id == f.id
  }

  /** Existing records keep every field, whatever happens to the merge; job rows are not
      touched, and the change log only grows. */
  lemma {:induction false} MergeKeepsExisting(db: Db, rows: seq<ForeignRow>,
                                              convert: ForeignRow -> Record, id: string)
    requires Imports(convert)
    requires GetArtifact(db.artifacts, id).Found?
    ensures var d := MergeRows(db, rows, convert).0;
      && GetArtifact(d.artifacts, id) == GetArtifact(db.artifacts, id)
      && d.jobs == db.jobs && d.jobSeq == db.jobSeq
      && db.changes <= d.changes
  {
    if rows != [] {
      var (d, ok) := MergeRows(db, rows[..|rows| - 1], convert);
      MergeKeepsExisting(db, rows[..|rows| - 1], convert, id);
      if ok {
        var f := rows[|rows| - 1];
        if GetArtifact(d.artifacts, f.id).Missing? {
          InsertThenGet(d, convert(f));
        }
      }
    }
  }

  /** In a valid store the merge of readable rows never fails and keeps the store valid. */
  lemma {:induction false} MergeSucceeds(db: Db, rows: seq<ForeignRow>, convert: ForeignRow -> Record)
    requires Valid(db)
    ensures MergeRows(db, rows, convert).1
    ensures Valid(MergeRows(db, rows, convert).0)
  {
    if rows != [] {
      MergeSucceeds(db, rows[..|rows| - 1], convert);
      var d := MergeRows(db, rows[..|rows| - 1], convert).0;
      var f := rows[|rows| - 1];
      ValidReadable(d, f.id);
      if GetArtifact(d.artifacts, f.id).Missing? {
        InsertedValid(d, convert(f));
      }
    }
  }

  /** An id absent from a valid store ends up holding the first foreign row with that id
      (converted), or stays absent when no foreign row has it. */
  lemma {:induction false} MergeFirstWins(db: Db, rows: seq<ForeignRow>,
                                          convert: ForeignRow -> Record, id: string)
    requires Valid(db) && Imports(convert)
    requires GetArtifact(db.artifacts, id).Missing?
    ensures GetArtifact(MergeRows(db, rows, convert).0.artifacts, id)
         == if FirstWith(rows, id).Some? then Found(convert(FirstWith(rows, id).value)) else Missing
  {
    if rows != [] {
      var front := rows[..|rows| - 1];
      var f := rows[|rows| - 1];
      MergeFirstWins(db, front, convert, id);
      MergeSucceeds(db, front, convert);
      var d := MergeRows(db, front, convert).0;
      ValidReadable(d, f.id);
      if GetArtifact(d.artifacts, f.id).Missing? {
        InsertThenGet(d, convert(f));
      }
    }
  }

  /** After a merge that succeeded every foreign id is present. */
  lemma MergeCovers(db: Db, rows: seq<ForeignRow>, convert: ForeignRow -> Record)
    requires Valid(db) && Imports(convert)
    ensures forall i :: 0 <= i < |rows| ==>
              GetArtifact(MergeRows(db, rows, convert).0.artifacts, rows[i].id).Found?
  {
    forall i | 0 <= i < |rows|
      ensures GetArtifact(MergeRows(db, rows, convert).0.artifacts, rows[i].id).Found?
    {
      var id := rows[i].id;
      match GetArtifact(db.artifacts, id)
      case Found(_) => MergeKeepsExisting(db, rows, convert, id);
      case Missing => MergeFirstWins(db, rows, convert, id);
      case Unreadable => ValidReadable(db, id);
    }
  }

  /** Rows whose ids are all present change nothing. */
  lemma {:induction false} MergePresent(db: Db, rows: seq<ForeignRow>, convert: ForeignRow -> Record)
    requires forall i :: 0 <= i < |rows| ==> GetArtifact(db.artifacts, rows[i].id).Found?
    ensures MergeRows(db, rows, convert) == (db, true)
  {
    if rows != [] {
      MergePresent(db, rows[..|rows| - 1], convert);
    }
  }

  /** A merge that failed on a prefix of the rows ends there: the later rows change
      nothing. */
  lemma {:induction false} MergeStops(db: Db, rows: seq<ForeignRow>, k: nat, convert: ForeignRow -> Record)
    requires k <= |rows|
    requires !MergeRows(db, rows[..k], convert).1
    ensures MergeRows(db, rows, convert) == MergeRows(db, rows[..k], convert)
  {
    if k < |rows| {
      assert rows[..|rows| - 1][..k] == rows[..k];
      MergeStops(db, rows[..|rows| - 1], k, convert);
    } else {
      assert rows[..k] == rows;
    }
  }

  /** Merging the same file twice gives the same store, and the same answer, as merging it
      once. */
  lemma MergeIdempotent(db: Db, snapshot: Snapshot, convert: ForeignRow -> Record)
    requires Valid(db) && Imports(convert)
    ensures var (once, ok) := Merged(db, snapshot, convert);
      Merged(once, snapshot, convert) == (once, ok)
  {
    if snapshot.Rows? {
      var once := MergeRows(db, snapshot.rows, convert).0;
      MergeSucceeds(db, snapshot.rows, convert);
      MergeCovers(db, snapshot.rows, convert);
      MergePresent(once, snapshot.rows, convert);
    }
  }

  /** In a valid store the merge returns True exactly when the file could be read, and the
      store stays valid. */
  lemma MergeAnswer(db: Db, snapshot: Snapshot, convert: ForeignRow -> Record)
    requires Valid(db)
    ensures Merged(db, snapshot, convert).1 <==> snapshot.Rows?
    ensures Valid(Merged(db, snapshot, convert).0)
  {
    if snapshot.Rows? {
      MergeSucceeds(db, snapshot.rows, convert);
    }
  }

  // ---------------------------------------------------------------------------------------
  // What the merged records read back as

  lemma {:induction false} EscapeLength(s: string)
    ensures |Escape(s)| >= |s|
  {
    if s != [] {
      EscapeLength(s[1..]);
    }
  }

  /** As written: a foreign row another store wrote for `r` is read back with its labels
      and metadata as JSON strings holding their text, not as the values themselves; the
      metadata of a merged record is never the object the other store held. */
  lemma ImportDoubleEncodes(r: Record)
    ensures var back := ImportRecord(ForeignOf(StoredRow(r)));
      && back.labels == JStr(Encode(r.labels))
      && back.metadata == JStr(Encode(r.metadata))
      && back.metadata != r.metadata
      && !back.metadata.JObj?
  {
    DecodeEncode(r.labels);
    DecodeEncode(r.metadata);
    if r.metadata.JStr? {
      EscapeLength(r.metadata.s);
    }
  }

  /** Corrected: the row another store wrote for `r` is merged back as `r` itself. */
  lemma ImportDecodedRoundTrip(r: Record)
    ensures ImportRecordDecoded(ForeignOf(StoredRow(r))) == r
  {
    EncodeStart(r.labels);
    EncodeStart(r.metadata);
    DecodeEncode(r.labels);
    DecodeEncode(r.metadata);
  }

  /** Corrected, over the whole merge: every record of the other store whose id is absent
      here reads back exactly as it was written there. */
  lemma MergeDecodedRoundTrip(db: Db, other: seq<Record>, k: nat)
    requires Valid(db) && k < |other|
    requires forall i :: 0 <= i < k ==> other[i].id != other[k].id
    requires GetArtifact(db.artifacts, other[k].id).Missing?
    ensures var rows := seq(|other|, i requires 0 <= i < |other| => ForeignOf(StoredRow(other[i])));
      GetArtifact(MergeRows(db, rows, ImportRecordDecoded).0.artifacts, other[k].id) == Found(other[k])
  {
    var rows := seq(|other|, i requires 0 <= i < |other| => ForeignOf(StoredRow(other[i])));
    MergeFirstWins(db, rows, ImportRecordDecoded, other[k].id);
    FirstIsAt(rows, k);
    ImportDecodedRoundTrip(other[k]);
  }

  /** As written, over the whole merge: a foreign record whose id is absent here reads
      back with its labels and metadata holding the foreign text as a string when that
      text is empty or JSON, holding `'[]'` and `'{}'` when it is not JSON, and null when
      the column was NULL. */
  lemma MergeKeptText(db: Db, rows: seq<ForeignRow>, k: nat)
    requires Valid(db) && k < |rows|
    requires forall i :: 0 <= i < k ==> rows[i].id != rows[k].id
    requires GetArtifact(db.artifacts, rows[k].id).Missing?
    ensures var got := GetArtifact(MergeRows(db, rows, ImportRecord).0.artifacts, rows[k].id);
      && got.Found?
      && (rows[k].labels.None? ==> got.record.labels == JNull)
      && ((rows[k].labels.Some? && (rows[k].labels.value == [] || Decode(rows[k].labels.value).Some?)) ==>
            got.record.labels == JStr(rows[k].labels.value))
      && ((rows[k].labels.Some? && rows[k].labels.value != [] && Decode(rows[k].labels.value).None?) ==>
            got.record.labels == JStr("[]"))
    ensures var got := GetArtifact(MergeRows(db, rows, ImportRecord).0.artifacts, rows[k].id);
      && got.Found?
      && (rows[k].metadata.None? ==> got.record.metadata == JNull)
      && ((rows[k].metadata.Some? && (rows[k].metadata.value == [] || Decode(rows[k].metadata.value).Some?)) ==>
            got.record.metadata == JStr(rows[k].metadata.value))
      && ((rows[k].metadata.Some? && rows[k].metadata.value != [] && Decode(rows[k].metadata.value).None?) ==>
            got.record.metadata == JStr("{}"))
  {
    MergeFirstWins(db, rows, ImportRecord, rows[k].id);
    FirstIsAt(rows, k);
  }

  lemma {:induction false} FirstIsAt(rows: seq<ForeignRow>, k: nat)
    requires k < |rows|
    requires forall i :: 0 <= i < k ==> rows[i].id != rows[k].id
    ensures FirstWith(rows, rows[k].id) == Some(rows[k])
  {
    if k < |rows| - 1 {
      FirstIsAt(rows[..|rows| - 1], k);
    } else {
      assert FirstWith(rows[..|rows| - 1], rows[k].id).None?;
    }
  }
}
