/**
 * Employee records and the create request's validation
 * (backend/internal/models/employee.go).
 */
module EmployeeModel {
  import opened Wrappers

  /** A row of the `employees` table (timestamps left out). */
  datatype Employee = Employee(
    id: string,
    companyId: string,
    name: string,
    trade: string,
    mobile: string,
    joiningDate: string,
    photoUrl: Option<string>,
    gender: Option<string>,
    dateOfBirth: Option<string>,
    nationality: Option<string>,
    passportNumber: Option<string>,
    nativeLocation: Option<string>,
    currentLocation: Option<string>,
    salary: Option<real>,
    status: string)

  /** The request keys `Validate` may report. */
  const RequiredEmployeeFields: set<string> := {"name", "trade", "companyId", "mobile", "joiningDate"}

  /** Body of `POST /api/employees`; absent JSON members decode to "" or nil. */
  datatype CreateEmployeeRequest = CreateEmployeeRequest(
    companyId: string,
    name: string,
    trade: string,
    mobile: string,
    joiningDate: string,
    photoUrl: string,
    gender: Option<string>,
    dateOfBirth: Option<string>,
    nationality: Option<string>,
    passportNumber: Option<string>,
    nativeLocation: Option<string>,
    currentLocation: Option<string>,
    salary: Option<real>,
    status: string)
  {
    /** The five checks, all passing. */
    predicate WellFormed() {
      2 <= |name| <= 100 && |trade| >= 2 && companyId != "" && mobile != "" && joiningDate != ""
    }

    /**
     * One entry per failed check, keyed by the JSON name of the field; the
     * checks run in source order and each inserts at most one key.
     */
    method Validate() returns (errors: map<string, string>)
      ensures "name" in errors <==> |name| < 2 || |name| > 100
      ensures "trade" in errors <==> |trade| < 2
      ensures "companyId" in errors <==> companyId == ""
      ensures "mobile" in errors <==> mobile == ""
      ensures "joiningDate" in errors <==> joiningDate == ""
      ensures errors.Keys <= RequiredEmployeeFields
      ensures errors == map[] <==> WellFormed()
      ensures "name" in errors ==> errors["name"] == "Name must be between 2 and 100 characters"
      ensures "trade" in errors ==> errors["trade"] == "Trade is required (min 2 characters)"
      ensures "companyId" in errors ==> errors["companyId"] == "Company is required"
      ensures "mobile" in errors ==> errors["mobile"] == "Mobile number is required"
      ensures "joiningDate" in errors ==> errors["joiningDate"] == "Joining date is required"
    {
      errors := map[];
      if |name| < 2 || |name| > 100 {
        errors := errors["name" := "Name must be between 2 and 100 characters"];
      }
      if |trade| < 2 {
        errors := errors["trade" := "Trade is required (min 2 characters)"];
      }
      if companyId == "" {
        errors := errors["companyId" := "Company is required"];
      }
      if mobile == "" {
        errors := errors["mobile" := "Mobile number is required"];
      }
      if joiningDate == "" {
        errors := errors["joiningDate" := "Joining date is required"];
      }
      if errors == map[] {
        assert "name" !in errors;
      }
    }
  }

  /** Body of `PUT /api/employees/{id}`: every member optional (nil = leave unchanged). */
  datatype UpdateEmployeeRequest = UpdateEmployeeRequest(
    companyId: Option<string>,
    name: Option<string>,
    trade: Option<string>,
    mobile: Option<string>,
    joiningDate: Option<string>,
    photoUrl: Option<string>,
    gender: Option<string>,
    dateOfBirth: Option<string>,
    nationality: Option<string>,
    passportNumber: Option<string>,
    nativeLocation: Option<string>,
    currentLocation: Option<string>,
    salary: Option<real>,
    status: Option<string>)
}
