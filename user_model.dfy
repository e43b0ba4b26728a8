/** User accounts and the validation of the auth requests (backend/internal/models/user.go). */
module UserModel {

  /** A row of the `users` table; `passwordHash` is never sent to clients. */
  datatype User = User(
    id: string,
    email: string,
    passwordHash: string,
    name: string,
    role: string)

  const RegisterFields: set<string> := {"email", "password", "name"}
  const LoginFields: set<string> := {"email", "password"}

  /** Body of `POST /api/auth/register`. */
  datatype RegisterRequest = RegisterRequest(email: string, password: string, name: string) {

    predicate WellFormed() {
      email != "" && |password| >= 6 && name != ""
    }

    method Validate() returns (errors: map<string, string>)
      ensures "email" in errors <==> email == ""
      ensures "password" in errors <==> |password| < 6
      ensures "name" in errors <==> name == ""
      ensures errors.Keys <= RegisterFields
      ensures errors == map[] <==> WellFormed()
      ensures "email" in errors ==> errors["email"] == "Email is required"
      ensures "password" in errors ==> errors["password"] == "Password must be at least 6 characters"
      ensures "name" in errors ==> errors["name"] == "Name is required"
    {
      errors := map[];
      if email == "" {
        errors := errors["email" := "Email is required"];
      }
      if |password| < 6 {
        errors := errors["password" := "Password must be at least 6 characters"];
      }
      if name == "" {
        errors := errors["name" := "Name is required"];
      }
      if errors == map[] {
        assert "email" !in errors;
      }
    }

    /** The credentials this registration would later log in with. */
    function Credentials(): LoginRequest {
      LoginRequest(email, password)
    }
  }

  /** Body of `POST /api/auth/login`. */
  datatype LoginRequest = LoginRequest(email: string, password: string) {

    predicate WellFormed() {
      email != "" && password != ""
    }

    method Validate() returns (errors: map<string, string>)
      ensures "email" in errors <==> email == ""
      ensures "password" in errors <==> password == ""
      ensures errors.Keys <= LoginFields
      ensures errors == map[] <==> WellFormed()
      ensures "email" in errors ==> errors["email"] == "Email is required"
      ensures "password" in errors ==> errors["password"] == "Password is required"
    {
      errors := map[];
      if email == "" {
        errors := errors["email" := "Email is required"];
      }
      if password == "" {
        errors := errors["password" := "Password is required"];
      }
      if errors == map[] {
        assert "email" !in errors;
      }
    }
  }

  /** Credentials that pass registration's checks also pass login's. */
  lemma RegisteredCredentialsPassLogin(r: RegisterRequest)
    requires r.WellFormed()
    ensures r.Credentials().WellFormed()
  {
    assert |r.password| >= 6;
  }
}
