/**
  The shared-secret check in front of `/consents`.
 */
module Admin {
  import opened JsValues

  datatype Gate = Forbidden | Pass

  /** The token the request provides: the `x-admin-token` header, else the
      `token` query parameter, else `null`. */
  function ProvidedToken(header: JsValue, query: JsValue): JsValue
  {
    Or(Or(header, query), Null)
  }

  /** `adminTokenEnv` is ADMIN_TOKEN ("" when unset). The request is refused
      when a token is configured and the provided one is not strictly equal
      to it. */
  function AdminGate(adminTokenEnv: string, header: JsValue, query: JsValue): (g: Gate)
    ensures adminTokenEnv == "" ==> g == Pass
    ensures g == Forbidden <==>
      adminTokenEnv != "" && (if Truthy(header) then header != Str(adminTokenEnv) else query != Str(adminTokenEnv))
  {
    var adminToken := EnvOrNull(adminTokenEnv);
    var provided := ProvidedToken(header, query);
    if Truthy(adminToken) && provided != adminToken then Forbidden else Pass
  }

  /** A truthy header takes precedence: a wrong header is refused even when
      the query parameter carries the right token, and a request with
      neither is refused whenever a token is configured. */
  lemma HeaderShadowsQuery(token: string, header: JsValue)
    requires token != "" && Truthy(header) && header != Str(token)
    ensures AdminGate(token, header, Str(token)) == Forbidden
    ensures AdminGate(token, Undefined, Undefined) == Forbidden
  {
  }
}
