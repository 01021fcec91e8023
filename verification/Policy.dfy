/** The policy data model: resource mappings, scope mappings, JSON values and errors. */
module Policy {
  datatype Option<+T> = None | Some(value: T)
  datatype Result<+T, +E> = Ok(value: T) | Err(error: E)

  /** `serde_json::Value`, as far as the policy looks into it. */
  datatype Json =
    | JString(text: string)
    | JObject(members: map<string, Json>)
    | JOther(id: nat)

  type Claims = map<string, Json>

  datatype ResourceMapping = ResourceMapping(
    clientIdentifier: string,
    participantContext: string,
    scopes: set<string>,
    audiences: set<string>)
  {
    function Key(): (string, string) { (clientIdentifier, participantContext) }
  }

  datatype ScopeMapping = ScopeMapping(scope: string, claims: Claims)

  datatype MappingPair = MappingPair(resourceMapping: ResourceMapping, scopeMappings: map<string, ScopeMapping>)

  /** The two ways a claim key can clash: a string met a non-string, or a non-string was already there. */
  datatype ClashReason = ConflictingTypes | DefinedTwice

  datatype InvalidReason = EmptyClient | EmptyContext | BadScopeName(scope: string) | EmptyAudience

  datatype ResourceError =
    | DatabaseError(message: string)
    | NotFound(id: string)
    | Conflict(id: string)
    | ClaimConflict(key: string, why: ClashReason)
    | ReservedClaim(key: string)
    | InvalidMapping(reason: InvalidReason)

  /** Verified or to-be-signed token claims; `custom` is flattened beside the named ones. */
  datatype TokenClaims = TokenClaims(
    sub: string, iss: string, aud: string, iat: int, exp: int, nbf: Option<int>, custom: Claims)

  /** Custom claim carrying the Kubernetes UID of a verified identity. */
  const K8S_UID_CLAIM := "k8s_uid"

  const RESERVED_CLAIMS: set<string> := {"sub", "iss", "aud", "exp", "iat", "nbf", "act", "jti"}

  predicate IsReservedClaim(key: string) { key in RESERVED_CLAIMS }
}
