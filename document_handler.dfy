/**
 * The document handlers (backend/internal/handlers/document.go) over an
 * in-memory `documents` table: the expiry mapping of `scanDocument`, the
 * primary-flag transactions `TogglePrimary` and `Renew`, and the dynamic SET
 * statement of `Update`. Each transaction is one method of `DocumentTable`.
 */
module DocumentHandler {
  import opened Wrappers
  import opened Text
  import opened Sql
  import opened DocumentModel

  // ── scanDocument ─────────────────────────────────────────────────────

  /** `COALESCE(d.expiry_date::text, '')`: the stored date's text, or "" for NULL. */
  function ExpiryColumn(stored: Option<string>): (raw: string)
    ensures stored.None? ==> raw == ""
    ensures stored.Some? ==> raw == stored.value
  {
    if stored.None? then "" else stored.value
  }

  /** `scanDocument`'s expiry: nil for an empty text, the text itself otherwise. */
  function ScanExpiry(raw: string): (expiry: Option<string>)
    ensures expiry.None? <==> raw == ""
    ensures expiry.Some? ==> expiry.value == raw
  {
    if raw != "" then Some(raw) else None
  }

  /** A date's text is never empty, so reading the column back gives the stored value. */
  lemma ScanExpiryRoundTrip(stored: Option<string>)
    requires stored.Some? ==> stored.value != ""
    ensures ScanExpiry(ExpiryColumn(stored)) == stored
  {
  }

  // ── Replies ──────────────────────────────────────────────────────────

  /** The HTTP status and message a handler writes. */
  datatype Reply = Reply(status: int, message: string)

  // ── Table operations as functions of the rows ────────────────────────

  /** The row `WHERE id = $1` selects. */
  function FindDocument(rows: seq<Document>, id: DocumentId): (k: Option<nat>)
    ensures k.Some? ==> k.value < |rows| && rows[k.value].id == id
    ensures k.None? ==> forall i :: 0 <= i < |rows| ==> rows[i].id != id
    decreases |rows|
  {
    if rows == [] then None
    else if rows[|rows| - 1].id == id then Some(|rows| - 1)
    else FindDocument(rows[..|rows| - 1], id)
  }

  /** One row under `SET is_primary = FALSE WHERE employee_id = $1 AND is_primary = TRUE`. */
  function Unflag(d: Document, employeeId: string): Document {
    if d.employeeId == employeeId && d.isPrimary then d.(isPrimary := false) else d
  }

  /** The table after the statement that clears an employee's primary flags. */
  function UnsetPrimaryOf(rows: seq<Document>, employeeId: string): (r: seq<Document>)
    ensures OnlyFlagsDiffer(rows, r)
    ensures forall i :: 0 <= i < |r| && r[i].employeeId == employeeId ==> !r[i].isPrimary
    ensures forall i :: 0 <= i < |r| && rows[i].employeeId != employeeId ==> r[i] == rows[i]
  {
    seq(|rows|, i requires 0 <= i < |rows| => Unflag(rows[i], employeeId))
  }

  /** The table after `SET is_primary = TRUE WHERE id = $1` on row `k`, following the clearing. */
  function SetPrimary(rows: seq<Document>, k: nat): (r: seq<Document>)
    requires k < |rows|
    ensures OnlyFlagsDiffer(rows, r) && r[k].isPrimary
    ensures forall j :: 0 <= j < |r| && j != k && r[j].employeeId == rows[k].employeeId ==> !r[j].isPrimary
  {
    UnsetPrimaryOf(rows, rows[k].employeeId)[k := rows[k].(isPrimary := true)]
  }

  /** Two tables that agree row by row except perhaps in `isPrimary`. */
  predicate OnlyFlagsDiffer(a: seq<Document>, b: seq<Document>) {
    |a| == |b| && forall i :: 0 <= i < |a| ==> b[i] == a[i].(isPrimary := b[i].isPrimary)
  }

  /**
   * After `SetPrimary` row `k` is the one primary row of its employee, no
   * other employee's row changed, and the table still has at most one
   * primary per employee.
   */
  lemma SetPrimaryMakesSolePrimary(rows: seq<Document>, k: nat)
    requires k < |rows| && AtMostOnePrimary(rows)
    ensures OnlyFlagsDiffer(rows, SetPrimary(rows, k))
    ensures forall j :: 0 <= j < |rows| && SetPrimary(rows, k)[j].employeeId == rows[k].employeeId ==>
      (SetPrimary(rows, k)[j].isPrimary <==> j == k)
    ensures forall j :: 0 <= j < |rows| && rows[j].employeeId != rows[k].employeeId ==> SetPrimary(rows, k)[j] == rows[j]
    ensures AtMostOnePrimary(SetPrimary(rows, k))
  {
    var r := SetPrimary(rows, k);
    var u := UnsetPrimaryOf(rows, rows[k].employeeId);
    forall i | 0 <= i < |r| && i != k ensures r[i] == u[i] { }
    forall i, j | 0 <= i < |r| && 0 <= j < |r| && r[i].isPrimary && r[j].isPrimary && r[i].employeeId == r[j].employeeId
      ensures i == j
    {
      if r[i].employeeId != rows[k].employeeId {
        assert r[i] == rows[i] && r[j] == rows[j];
      }
    }
  }

  /** Clearing one row's flag keeps at most one primary per employee and changes nothing else. */
  lemma ClearFlagKeepsInvariant(rows: seq<Document>, k: nat)
    requires k < |rows| && AtMostOnePrimary(rows)
    ensures OnlyFlagsDiffer(rows, rows[k := rows[k].(isPrimary := false)])
    ensures AtMostOnePrimary(rows[k := rows[k].(isPrimary := false)])
  {
    var r := rows[k := rows[k].(isPrimary := false)];
    forall i, j | 0 <= i < |r| && 0 <= j < |r| && r[i].isPrimary && r[j].isPrimary && r[i].employeeId == r[j].employeeId
      ensures i == j
    {
      assert r[i] == rows[i] && r[j] == rows[j];
    }
  }

  // ── Renew ────────────────────────────────────────────────────────────

  /** The body of `POST /api/documents/{id}/renew`; `expiry` None stands for an empty date. */
  datatype RenewRequest = RenewRequest(
    expiry: Option<Day>,
    fileUrl: string,
    fileName: string,
    fileSize: int,
    fileType: string)

  /** A file field of the renewal: the request's text when non-empty, else the old one's. */
  function Prefer(given: string, kept: string): (v: string)
    ensures given != "" ==> v == given
    ensures given == "" ==> v == kept
  {
    if given != "" then given else kept
  }

  /**
   * The inserted row: the old row's employee and type, the requested expiry,
   * primary, and each file field from the request when given (the size when
   * positive), else from the old row.
   */
  function RenewedDocument(original: Document, req: RenewRequest, newId: DocumentId): (d: Document)
    requires req.expiry.Some?
    ensures d.id == newId && d.employeeId == original.employeeId && d.documentType == original.documentType
    ensures d.expiry == req.expiry && d.isPrimary
    ensures d.fileUrl == Prefer(req.fileUrl, original.fileUrl) && d.fileName == Prefer(req.fileName, original.fileName)
    ensures d.fileType == Prefer(req.fileType, original.fileType)
    ensures req.fileSize > 0 ==> d.fileSize == req.fileSize
    ensures req.fileSize <= 0 ==> d.fileSize == original.fileSize
  {
    Document(newId, original.employeeId, original.documentType, req.expiry, true,
      Prefer(req.fileUrl, original.fileUrl), Prefer(req.fileName, original.fileName),
      if req.fileSize > 0 then req.fileSize else original.fileSize,
      Prefer(req.fileType, original.fileType))
  }

  /**
   * Clearing an employee's flags and appending a primary row of that
   * employee leaves the new row as that employee's only primary, keeps every
   * old row (flags aside), and keeps at most one primary per employee.
   */
  lemma RenewMakesSolePrimary(rows: seq<Document>, d: Document)
    requires AtMostOnePrimary(rows) && d.isPrimary
    ensures AtMostOnePrimary(UnsetPrimaryOf(rows, d.employeeId) + [d])
    ensures forall j :: 0 <= j < |rows| && (UnsetPrimaryOf(rows, d.employeeId) + [d])[j].employeeId == d.employeeId ==>
      !(UnsetPrimaryOf(rows, d.employeeId) + [d])[j].isPrimary
  {
    var u := UnsetPrimaryOf(rows, d.employeeId);
    var r := u + [d];
    forall i, j | 0 <= i < |r| && 0 <= j < |r| && r[i].isPrimary && r[j].isPrimary && r[i].employeeId == r[j].employeeId
      ensures i == j
    {
      if i < |rows| && j < |rows| {
        assert r[i] == u[i] && r[j] == u[j];
      }
    }
    forall j | 0 <= j < |rows| && r[j].employeeId == d.employeeId ensures !r[j].isPrimary {
      assert r[j] == u[j];
    }
  }

  // ── Update ───────────────────────────────────────────────────────────

  /** The request members as (column, value) pairs in the order the handler tests them. */
  function DocumentUpdateFields(req: UpdateDocumentRequest): (fields: seq<(string, Option<SqlArg>)>)
    ensures |fields| == 6
    ensures (forall i :: 0 <= i < |fields| ==> fields[i].1.None?) <==> NoDocumentFields(req)
  {
    var fields := [
      ("document_type", if req.documentType.None? then None else Some(Str(req.documentType.value))),
      ("expiry_date", if req.expiry.None? then None else Some(Date(req.expiry.value))),
      ("file_url", if req.fileUrl.None? then None else Some(Str(req.fileUrl.value))),
      ("file_name", if req.fileName.None? then None else Some(Str(req.fileName.value))),
      ("file_size", if req.fileSize.None? then None else Some(Int(req.fileSize.value))),
      ("file_type", if req.fileType.None? then None else Some(Str(req.fileType.value)))];
    assert (fields[0].1.None? && fields[1].1.None? && fields[2].1.None? && fields[3].1.None? &&
      fields[4].1.None? && fields[5].1.None?) ==> NoDocumentFields(req);
    fields
  }

  /** No member the handler reads is present (`isPrimary` is not one of them). */
  predicate NoDocumentFields(req: UpdateDocumentRequest) {
    req.documentType.None? && req.expiry.None? && req.fileUrl.None? &&
    req.fileName.None? && req.fileSize.None? && req.fileType.None?
  }

  /** The six columns an update may set, in the order the handler tests them. */
  datatype DocumentColumn =
    | DocumentTypeColumn | ExpiryDateColumn | FileUrlColumn | FileNameColumn | FileSizeColumn | FileTypeColumn

  const UpdateColumns: seq<DocumentColumn> :=
    [DocumentTypeColumn, ExpiryDateColumn, FileUrlColumn, FileNameColumn, FileSizeColumn, FileTypeColumn]

  function ColumnName(c: DocumentColumn): string {
    match c
    case DocumentTypeColumn => "document_type"
    case ExpiryDateColumn => "expiry_date"
    case FileUrlColumn => "file_url"
    case FileNameColumn => "file_name"
    case FileSizeColumn => "file_size"
    case FileTypeColumn => "file_type"
  }

  /** A column's value in a row; a NULL expiry is None. */
  function RowValue(d: Document, c: DocumentColumn): Option<SqlArg> {
    match c
    case DocumentTypeColumn => Some(Str(d.documentType))
    case ExpiryDateColumn => if d.expiry.None? then None else Some(Date(d.expiry.value))
    case FileUrlColumn => Some(Str(d.fileUrl))
    case FileNameColumn => Some(Str(d.fileName))
    case FileSizeColumn => Some(Int(d.fileSize))
    case FileTypeColumn => Some(Str(d.fileType))
  }

  /** The value a request gives a column, None when the member is absent. */
  function RequestValue(req: UpdateDocumentRequest, c: DocumentColumn): Option<SqlArg> {
    match c
    case DocumentTypeColumn => if req.documentType.None? then None else Some(Str(req.documentType.value))
    case ExpiryDateColumn => if req.expiry.None? then None else Some(Date(req.expiry.value))
    case FileUrlColumn => if req.fileUrl.None? then None else Some(Str(req.fileUrl.value))
    case FileNameColumn => if req.fileName.None? then None else Some(Str(req.fileName.value))
    case FileSizeColumn => if req.fileSize.None? then None else Some(Int(req.fileSize.value))
    case FileTypeColumn => if req.fileType.None? then None else Some(Str(req.fileType.value))
  }

  /** The k-th pair of the field list is the k-th column's name and the request's value for it. */
  lemma FieldsFollowColumns(req: UpdateDocumentRequest)
    ensures forall k :: 0 <= k < 6 ==>
      DocumentUpdateFields(req)[k] == (ColumnName(UpdateColumns[k]), RequestValue(req, UpdateColumns[k]))
  {
    var fields := DocumentUpdateFields(req);
    forall k | 0 <= k < 6
      ensures fields[k] == (ColumnName(UpdateColumns[k]), RequestValue(req, UpdateColumns[k]))
    {
      if k == 0 {
      } else if k == 1 {
      } else if k == 2 {
      } else if k == 3 {
      } else if k == 4 {
      }
    }
  }

  /** The id, the employee, the primary flag and the six updatable columns make up the whole row. */
  lemma ColumnsDetermineRow(a: Document, b: Document)
    requires a.id == b.id && a.employeeId == b.employeeId && a.isPrimary == b.isPrimary
    requires forall c :: RowValue(a, c) == RowValue(b, c)
    ensures a == b
  {
    assert RowValue(a, DocumentTypeColumn) == RowValue(b, DocumentTypeColumn);
    assert RowValue(a, ExpiryDateColumn) == RowValue(b, ExpiryDateColumn);
    assert RowValue(a, FileUrlColumn) == RowValue(b, FileUrlColumn);
    assert RowValue(a, FileNameColumn) == RowValue(b, FileNameColumn);
    assert RowValue(a, FileSizeColumn) == RowValue(b, FileSizeColumn);
    assert RowValue(a, FileTypeColumn) == RowValue(b, FileTypeColumn);
  }

  /**
   * The row the UPDATE leaves: each column the request provides takes the
   * request's value, every other column keeps the row's value, and the id,
   * the employee and the primary flag stay (`isPrimary` in the request is
   * ignored). With `ColumnsDetermineRow` nothing else about the row changes.
   */
  function ApplyDocumentUpdate(d: Document, req: UpdateDocumentRequest): (r: Document)
    ensures r.id == d.id && r.employeeId == d.employeeId && r.isPrimary == d.isPrimary
    ensures forall c :: RowValue(r, c) == if RequestValue(req, c).Some? then RequestValue(req, c) else RowValue(d, c)
  {
    d.(documentType := req.documentType.GetOr(d.documentType),
       expiry := if req.expiry.Some? then req.expiry else d.expiry,
       fileUrl := req.fileUrl.GetOr(d.fileUrl),
       fileName := req.fileName.GetOr(d.fileName),
       fileSize := req.fileSize.GetOr(d.fileSize),
       fileType := req.fileType.GetOr(d.fileType))
  }

  /** Where a column stands in `UpdateColumns`. */
  function ColumnIndex(c: DocumentColumn): (k: nat)
    ensures k < |UpdateColumns| && UpdateColumns[k] == c
  {
    match c
    case DocumentTypeColumn => 0
    case ExpiryDateColumn => 1
    case FileUrlColumn => 2
    case FileNameColumn => 3
    case FileSizeColumn => 4
    case FileTypeColumn => 5
  }

  /**
   * The SET list and the row agree: every pair the statement assigns is a
   * column the update gives that value, and every column the update changes
   * is one the statement assigns.
   */
  lemma UpdateSetsOnlyProvided(d: Document, req: UpdateDocumentRequest)
    ensures forall p :: p in Provided(DocumentUpdateFields(req)) ==>
      exists c :: ColumnName(c) == p.0 && RowValue(ApplyDocumentUpdate(d, req), c) == Some(p.1)
    ensures forall c :: RowValue(ApplyDocumentUpdate(d, req), c) != RowValue(d, c) ==>
      RequestValue(req, c).Some? && (ColumnName(c), RequestValue(req, c).value) in Provided(DocumentUpdateFields(req))
  {
    var fields, u := DocumentUpdateFields(req), ApplyDocumentUpdate(d, req);
    ProvidedMembers(fields);
    FieldsFollowColumns(req);
    forall p | p in Provided(fields) ensures exists c :: ColumnName(c) == p.0 && RowValue(u, c) == Some(p.1) {
      var k :| 0 <= k < |fields| && fields[k] == (p.0, Some(p.1));
      assert ColumnName(UpdateColumns[k]) == p.0 && RowValue(u, UpdateColumns[k]) == Some(p.1);
    }
    forall c | RowValue(u, c) != RowValue(d, c)
      ensures RequestValue(req, c).Some? && (ColumnName(c), RequestValue(req, c).value) in Provided(fields)
    {
      var k := ColumnIndex(c);
      assert fields[k] == (ColumnName(c), RequestValue(req, c));
    }
  }

  /** Applying the same update twice changes nothing more than applying it once. */
  lemma UpdateIdempotent(d: Document, req: UpdateDocumentRequest)
    ensures ApplyDocumentUpdate(ApplyDocumentUpdate(d, req), req) == ApplyDocumentUpdate(d, req)
  {
    var u := ApplyDocumentUpdate(d, req);
    ColumnsDetermineRow(ApplyDocumentUpdate(u, req), u);
  }

  /**
   * An update never moves a row to another employee nor touches its flag,
   * even when the request carries `isPrimary`, so the invariant survives it.
   */
  lemma UpdateKeepsInvariant(rows: seq<Document>, k: nat, req: UpdateDocumentRequest)
    requires k < |rows| && AtMostOnePrimary(rows)
    ensures AtMostOnePrimary(rows[k := ApplyDocumentUpdate(rows[k], req)])
  {
    var r := rows[k := ApplyDocumentUpdate(rows[k], req)];
    forall i, j | 0 <= i < |r| && 0 <= j < |r| && r[i].isPrimary && r[j].isPrimary && r[i].employeeId == r[j].employeeId
      ensures i == j
    {
      assert r[i].isPrimary == rows[i].isPrimary && r[i].employeeId == rows[i].employeeId;
      assert r[j].isPrimary == rows[j].isPrimary && r[j].employeeId == rows[j].employeeId;
    }
  }

  // ── The table ────────────────────────────────────────────────────────

  /** The `documents` table; `nextId` stands for the ids the database has not handed out yet. */
  class DocumentTable {
    var rows: seq<Document>
    var nextId: DocumentId

    /** Ids are distinct and already issued, and each employee has at most one primary row. */
    predicate Valid()
      reads this
    {
      (forall i :: 0 <= i < |rows| ==> rows[i].id < nextId) &&
      (forall i, j :: 0 <= i < |rows| && 0 <= j < |rows| && rows[i].id == rows[j].id ==> i == j) &&
      AtMostOnePrimary(rows)
    }

    constructor ()
      ensures Valid() && rows == [] && nextId == 0
    {
      rows := [];
      nextId := 0;
    }

    /** The primary-clearing statement, one row at a time. */
    method UnsetPrimary(employeeId: string)
      modifies this
      ensures rows == UnsetPrimaryOf(old(rows), employeeId) && nextId == old(nextId)
    {
      var i := 0;
      while i < |rows|
        invariant 0 <= i <= |rows| == |old(rows)| && nextId == old(nextId)
        invariant forall j :: 0 <= j < i ==> rows[j] == Unflag(old(rows)[j], employeeId)
        invariant forall j :: i <= j < |rows| ==> rows[j] == old(rows)[j]
      {
        if rows[i].employeeId == employeeId && rows[i].isPrimary {
          rows := rows[i := rows[i].(isPrimary := false)];
        }
        i := i + 1;
      }
    }

    /**
     * `PATCH /api/documents/{id}/primary` as one transaction (`id` None is an
     * empty path parameter). A missing document or one without an expiry is
     * refused with the table unchanged; a primary document loses its flag;
     * any other becomes its employee's primary after the others are cleared.
     */
    method TogglePrimary(id: Option<DocumentId>) returns (reply: Reply)
      requires Valid()
      modifies this
      ensures Valid() && nextId == old(nextId)
      ensures id.None? ==> reply == Reply(400, "Document ID is required") && rows == old(rows)
      ensures id.Some? && FindDocument(old(rows), id.value).None? ==>
        reply == Reply(404, "Document not found") && rows == old(rows)
      ensures id.Some? && FindDocument(old(rows), id.value).Some? ==>
        var k := FindDocument(old(rows), id.value).value;
        (old(rows)[k].expiry.None? ==>
          reply == Reply(400, "Cannot set as primary: document has no expiry date") && rows == old(rows)) &&
        (old(rows)[k].expiry.Some? && old(rows)[k].isPrimary ==>
          reply == Reply(200, "Primary document updated successfully") &&
          rows == old(rows)[k := old(rows)[k].(isPrimary := false)]) &&
        (old(rows)[k].expiry.Some? && !old(rows)[k].isPrimary ==>
          reply == Reply(200, "Primary document updated successfully") && rows == SetPrimary(old(rows), k))
    {
      if id.None? {
        return Reply(400, "Document ID is required");
      }
      var found := FindDocument(rows, id.value);
      if found.None? {
        return Reply(404, "Document not found");
      }
      var k := found.value;
      var target := rows[k];
      if target.expiry.None? {
        return Reply(400, "Cannot set as primary: document has no expiry date");
      }
      if target.isPrimary {
        ClearFlagKeepsInvariant(rows, k);
        rows := rows[k := target.(isPrimary := false)];
      } else {
        SetPrimaryMakesSolePrimary(rows, k);
        ghost var before := rows;
        UnsetPrimary(target.employeeId);
        rows := rows[k := target.(isPrimary := true)];
        assert rows == SetPrimary(before, k);
        FlagsKeepIds(before, rows, nextId);
      }
      reply := Reply(200, "Primary document updated successfully");
    }

    /**
     * `POST /api/documents/{id}/renew` as one transaction. An empty expiry is
     * refused before the lookup, an unknown id after it; otherwise the
     * employee's primary flags are cleared and the renewed row is appended as
     * the new primary under a fresh id. The old row is kept.
     */
    method Renew(id: Option<DocumentId>, req: RenewRequest) returns (reply: Reply, renewed: Option<Document>)
      requires Valid()
      modifies this
      ensures Valid()
      ensures id.None? ==> reply == Reply(400, "Document ID is required")
      ensures id.Some? && req.expiry.None? ==> reply == Reply(422, "New expiry date is required")
      ensures id.Some? && req.expiry.Some? && FindDocument(old(rows), id.value).None? ==>
        reply == Reply(404, "Original document not found")
      ensures renewed.None? ==> rows == old(rows) && nextId == old(nextId)
      ensures renewed.Some? <==> id.Some? && req.expiry.Some? && FindDocument(old(rows), id.value).Some?
      ensures renewed.Some? ==>
        reply == Reply(201, "Document renewed successfully") &&
        renewed.value == RenewedDocument(old(rows)[FindDocument(old(rows), id.value).value], req, old(nextId)) &&
        rows == UnsetPrimaryOf(old(rows), renewed.value.employeeId) + [renewed.value] &&
        nextId == old(nextId) + 1
    {
      if id.None? {
        return Reply(400, "Document ID is required"), None;
      }
      if req.expiry.None? {
        return Reply(422, "New expiry date is required"), None;
      }
      var found := FindDocument(rows, id.value);
      if found.None? {
        return Reply(404, "Original document not found"), None;
      }
      var d := RenewedDocument(rows[found.value], req, nextId);
      RenewMakesSolePrimary(rows, d);
      ghost var before := rows;
      UnsetPrimary(d.employeeId);
      FlagsKeepIds(before, rows, nextId);
      rows := rows + [d];
      nextId := nextId + 1;
      renewed := Some(d);
      reply := Reply(201, "Document renewed successfully");
    }

    /**
     * `PUT /api/documents/{id}`: a request without a member the handler reads
     * is refused before the lookup; otherwise the statement sets the given
     * columns and `last_updated`, and the row with that id, if any, takes them.
     */
    method Update(id: Option<DocumentId>, req: UpdateDocumentRequest) returns (reply: Reply, statement: Option<UpdateSql>)
      requires Valid()
      modifies this
      ensures Valid() && nextId == old(nextId)
      ensures id.None? ==> reply == Reply(400, "Document ID is required") && statement.None?
      ensures id.Some? && NoDocumentFields(req) ==> reply == Reply(400, "No fields to update") && statement.None?
      ensures statement.Some? <==> id.Some? && !NoDocumentFields(req)
      ensures statement.Some? ==>
        statement.value.setList == Join(Assignments(Provided(DocumentUpdateFields(req)), 1) + ["last_updated = NOW()"], ", ") &&
        statement.value.args == ArgsOf(Provided(DocumentUpdateFields(req))) + [Int(id.value)] &&
        statement.value.idPlaceholder == |statement.value.args|
      ensures statement.Some? && FindDocument(old(rows), id.value).None? ==>
        reply == Reply(404, "Document not found") && rows == old(rows)
      ensures statement.Some? && FindDocument(old(rows), id.value).Some? ==>
        var k := FindDocument(old(rows), id.value).value;
        reply == Reply(200, "Document updated successfully") &&
        rows == old(rows)[k := ApplyDocumentUpdate(old(rows)[k], req)]
      ensures statement.None? ==> rows == old(rows)
    {
      if id.None? {
        return Reply(400, "Document ID is required"), None;
      }
      statement := UpdateStatement(DocumentUpdateFields(req), "last_updated = NOW()", Int(id.value));
      if statement.None? {
        return Reply(400, "No fields to update"), None;
      }
      var found := FindDocument(rows, id.value);
      if found.None? {
        return Reply(404, "Document not found"), statement;
      }
      var k := found.value;
      UpdateKeepsInvariant(rows, k, req);
      ghost var before := rows;
      rows := rows[k := ApplyDocumentUpdate(rows[k], req)];
      forall i | 0 <= i < |rows| ensures rows[i].id == before[i].id { }
      reply := Reply(200, "Document updated successfully");
    }
  }

  /** Rows that differ only in their flags carry the same ids. */
  lemma FlagsKeepIds(a: seq<Document>, b: seq<Document>, nextId: nat)
    requires OnlyFlagsDiffer(a, b)
    requires forall i :: 0 <= i < |a| ==> a[i].id < nextId
    requires forall i, j :: 0 <= i < |a| && 0 <= j < |a| && a[i].id == a[j].id ==> i == j
    ensures forall i :: 0 <= i < |b| ==> b[i].id < nextId
    ensures forall i, j :: 0 <= i < |b| && 0 <= j < |b| && b[i].id == b[j].id ==> i == j
  {
    forall i | 0 <= i < |b| ensures b[i].id == a[i].id {
      assert b[i] == a[i].(isPrimary := b[i].isPrimary);
    }
  }
}
