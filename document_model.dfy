/**
 * Document records, the requests that create and change them, and the create
 * request's validation (backend/internal/models/document.go).
 */
module DocumentModel {
  import opened Wrappers

  /** A calendar date, as a day number: consecutive days differ by one. */
  type Day = int

  /** Document ids; the database generates them, the model counts them up. */
  type DocumentId = nat

  /**
   * A row of the `documents` table (timestamps left out). `expiry` is nullable:
   * not every document expires. `isPrimary` marks the one document per employee
   * that status and alerts are computed from.
   */
  datatype Document = Document(
    id: DocumentId,
    employeeId: string,
    documentType: string,
    expiry: Option<Day>,
    isPrimary: bool,
    fileUrl: string,
    fileName: string,
    fileSize: int,
    fileType: string)

  /**
   * The table invariant: among the rows of one employee at most one is
   * primary, so joining an employee to "its primary document" yields at most
   * one row.
   */
  predicate AtMostOnePrimary(docs: seq<Document>) {
    forall i, j ::
      (0 <= i < |docs| && 0 <= j < |docs| && docs[i].isPrimary && docs[j].isPrimary &&
       docs[i].employeeId == docs[j].employeeId) ==> i == j
  }

  /** The request keys `Validate` may report. */
  const RequiredDocumentFields: set<string> := {"documentType", "fileUrl", "fileName"}

  /** Body of `POST /api/employees/{employeeId}/documents`; `expiry` is optional. */
  datatype CreateDocumentRequest = CreateDocumentRequest(
    documentType: string,
    expiry: Option<Day>,
    fileUrl: string,
    fileName: string,
    fileSize: int,
    fileType: string)
  {
    predicate WellFormed() {
      |documentType| >= 2 && fileUrl != "" && fileName != ""
    }

    /**
     * One entry per failed check. The expiry date is not checked at all, so a
     * request without one can pass.
     */
    method Validate() returns (errors: map<string, string>)
      ensures "documentType" in errors <==> |documentType| < 2
      ensures "fileUrl" in errors <==> fileUrl == ""
      ensures "fileName" in errors <==> fileName == ""
      ensures errors.Keys <= RequiredDocumentFields
      ensures errors == map[] <==> WellFormed()
      ensures "documentType" in errors ==> errors["documentType"] == "Document type is required (min 2 characters)"
      ensures "fileUrl" in errors ==> errors["fileUrl"] == "File URL is required"
      ensures "fileName" in errors ==> errors["fileName"] == "File name is required"
    {
      errors := map[];
      if |documentType| < 2 {
        errors := errors["documentType" := "Document type is required (min 2 characters)"];
      }
      if fileUrl == "" {
        errors := errors["fileUrl" := "File URL is required"];
      }
      if fileName == "" {
        errors := errors["fileName" := "File name is required"];
      }
      if errors == map[] {
        assert "documentType" !in errors;
      }
    }
  }

  /**
   * Body of `PUT /api/documents/{id}`: nil members are left unchanged. The
   * request may carry `isPrimary`, but the update handler never reads it.
   */
  datatype UpdateDocumentRequest = UpdateDocumentRequest(
    documentType: Option<string>,
    expiry: Option<Day>,
    fileUrl: Option<string>,
    fileName: Option<string>,
    fileSize: Option<int>,
    fileType: Option<string>,
    isPrimary: Option<bool>)
}
