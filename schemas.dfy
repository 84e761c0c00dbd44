/**
 * The request and response bodies of the account API and the field
 * constraints the web framework enforces on them before a handler runs.
 */
module Schemas {
  import opened Wrappers

  /** An error detail: a plain message, or the list of request fields that failed validation. */
  datatype Detail = Message(text: string) | InvalidFields(fields: seq<string>)

  /** An HTTP error response (`HTTPException`, or the framework's validation failure). */
  datatype HttpError = HttpError(status: int, detail: Detail)

  const UsernameMinLength := 3
  const UsernameMaxLength := 30
  const PasswordMinLength := 6
  const PasswordMaxLength := 128
  const DefaultTokenType := "bearer"

  datatype RegisterRequest = RegisterRequest(username: string, password: string)
  datatype LoginRequest = LoginRequest(username: string, password: string)
  datatype TokenResponse = TokenResponse(accessToken: string, tokenType: string)
  datatype MeResponse = MeResponse(id: int, username: string)

  predicate UsernameLengthOk(username: string) {
    UsernameMinLength <= |username| <= UsernameMaxLength
  }

  predicate PasswordLengthOk(password: string) {
    PasswordMinLength <= |password| <= PasswordMaxLength
  }

  /** The fields of a registration body that break their length bounds, in declaration order. */
  function RegisterFieldErrors(username: string, password: string): (fields: seq<string>)
    ensures "username" in fields <==> !UsernameLengthOk(username)
    ensures "password" in fields <==> !PasswordLengthOk(password)
    ensures fields == [] <==> UsernameLengthOk(username) && PasswordLengthOk(password)
    ensures |fields| <= 2
  {
    (if UsernameLengthOk(username) then [] else ["username"]) +
    (if PasswordLengthOk(password) then [] else ["password"])
  }

  /**
   * Parsing a registration body: a username of 3 to 30 characters and a
   * password of 6 to 128, counted on the raw strings; otherwise a 422 naming
   * the offending fields.
   */
  function ValidateRegister(username: string, password: string): (r: Result<RegisterRequest, HttpError>)
    ensures r.Ok? <==> UsernameLengthOk(username) && PasswordLengthOk(password)
    ensures r.Ok? ==> r.value == RegisterRequest(username, password)
    ensures r.Err? ==> r.error.status == 422 && r.error.detail.InvalidFields? && r.error.detail.fields != []
  {
    var fields := RegisterFieldErrors(username, password);
    if fields == [] then Ok(RegisterRequest(username, password)) else Err(HttpError(422, InvalidFields(fields)))
  }

  /** Parsing a login body: any two strings are accepted, unchanged. */
  function ValidateLogin(username: string, password: string): (r: Result<LoginRequest, HttpError>)
    ensures r.Ok? && r.value.username == username && r.value.password == password
  {
    Ok(LoginRequest(username, password))
  }

  /** `TokenResponse(access_token=...)`: the token type defaults to "bearer". */
  function NewTokenResponse(accessToken: string): (r: TokenResponse)
    ensures r.accessToken == accessToken && r.tokenType == "bearer"
  {
    TokenResponse(accessToken, DefaultTokenType)
  }
}
