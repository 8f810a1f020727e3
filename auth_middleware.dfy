/** The header-presence gate `auth({ required })` that the step handlers
    are configured with. */
module AuthMiddleware {
  import opened Json
  import opened Model
  import opened Headers

  datatype Outcome = Reject(response: Response) | Next

  /** The header value is truthy: present and not the empty string. */
  predicate Supplied(headers: map<string, string>)
  {
    AuthHeader(headers).Some? && AuthHeader(headers).value != ""
  }

  /** Rejects with 401 exactly when the header is required and not supplied;
      otherwise hands on to the handler without looking at the token. */
  function Auth(required: bool, headers: map<string, string>): (r: Outcome)
    ensures r.Reject? <==> required && !Supplied(headers)
    ensures r.Reject? ==> r.response == Reply(401, Error("Unauthorized"))
    ensures r.Next? && required ==> AuthHeader(headers).Some?
  {
    var authToken := AuthHeader(headers);
    var missing := authToken.None? || authToken.value == "";
    if missing && required then Reject(Reply(401, Error("Unauthorized")))
    else if missing && !required then Next
    else Next
  }

  /** An empty lower-case header hides a filled-in `Authorization` header. */
  lemma EmptyLowercaseHides(headers: map<string, string>)
    requires "authorization" in headers && headers["authorization"] == ""
    requires "Authorization" in headers && headers["Authorization"] != ""
    ensures Auth(true, headers) == Reject(Reply(401, Error("Unauthorized")))
  {
  }
}
