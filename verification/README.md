# Patient history service: token gate and history store, in Dafny

This project models the core of a small patient-history backend. Every HTTP request passes a
stateless bearer-token gate. A token service issues, validates and reads compact JWS tokens
(RFC 7519 claims in the compact serialization of section 7.1 of RFC 7515, signed with HS256,
section 3.2 of RFC 7518). An "every request must be authenticated" policy sits behind the gate.
Behind the policy, a service and a REST controller store and list free-text history notes
per patient.

Files and modules:

- `wrappers.dfy` (`Wrappers`): `Option` for Java's nullable references, `Result` for exceptions.
- `http_status.dfy` (`HttpStatus`): the HTTP status codes used.
- `jwt.dfy` (`Jwt`): claims, the JWT library as an abstract `Codec`, and the class `JwtService`.
  The class has the mutable secret and lifetime as fields. Validation, extraction and issuance
  are functions over those fields and an explicit clock reading `now` in milliseconds.
- `jwt_properties.dfy` (`JwtProperties`): lemmas about the token service.
- `jwt_filter.dfy` (`JwtFilter`): the gate's decision function `Decide`. Also the imperative
  `JwtAuthenticationFilter.DoFilterInternal`, which writes the security context, writes the
  response status and calls the rest of the chain. The chain is a `FilterChain` object that
  records each call it receives.
- `security_config.dfy` (`SecurityConfig`): the policy `filterChain` builds, as data. It is run
  per request by `RunStages`/`Serve`, giving the end-to-end "reaches a handler only with a
  principal" result.
- `history_store.dfy` (`HistoryStore`): the `History` record and the repository, as a class
  holding a map from id to document.
- `history_service.dfy` (`HistoryServices`) and `history_controller.dfy` (`Controllers`): the
  service over the repository and the controller's status mapping.

The JWT library is not modelled as cryptography. A `Codec` value holds its base64 decoder, its
signer/serializer `encode` and its parser/verifier `decode`. The ghost predicate `Jwt.Sound`
states what the service relies on:

- round trip under the signing key (a property of the library's serializer and parser);
- issued tokens always have text, since a compact token holds at least two dots;
- a token signed under one key does not verify under a key that HMAC-SHA256 tells apart
  from it (`Jwt.DistinctHmacKeys`). This is an unforgeability assumption about HMAC, not a
  library guarantee. HMAC pads a key shorter than its 64-byte block with zero bytes, so keys
  that differ only by trailing zero bytes sign alike and are not covered. Keys longer than
  one block are hashed first and are not covered either.

Lemmas that need these facts take `Sound(jwt.codec)` as a precondition. The library's own
`parseClaimsJws` policy is modelled explicitly as `Jwt.ParseClaimsJws`. It refuses a null,
empty or whitespace-only string (Java's `Character.isWhitespace`), verifies, and then refuses
a token whose `exp` lies more than the allowed skew before now.

Three behaviours of the code worth noting:

- Validation (`isTokenValid`) allows no clock skew. The parser runs with skew 0 and the result
  also demands `exp` strictly after now. Only claim extraction allows 60 s.
- The secret and the lifetime are mutable fields with setters, not immutable configuration.
- A request that the gate passes through without a principal is refused by the authorization
  rule. The status of that refusal is Spring's default and is not chosen by this code, so the
  model calls it `AccessDenied` rather than 401.

Three things the model makes visible:

- A validly signed token without a `sub` claim authenticates with a null principal (a numeric
  `sub` is turned into its decimal string, as the library does). It still passes the
  "authenticated" rule, because the gate builds an authenticated token with an empty
  authority list. `SecurityConfig.HandlerOnlyWithPrincipal` therefore promises an
  authentication, with the token's subject as its principal, and not a non-null name. Tokens
  issued by `JwtService` always carry the subject (`SecurityConfig.IssuedTokenReachesHandler`).
- Spring's default logout stage stays in the chain and comes before the gate. With CSRF
  protection disabled it answers GET, POST, PUT and DELETE on `/logout` with its redirect,
  whatever the request carries (`SecurityConfig.LogoutAnsweredBeforeGate`). That route is the
  one exception to "every request is authenticated".
- `exp` is computed with Java `long` arithmetic. A lifetime that overflows it produces a token
  that is never valid (`JwtProperties.OverflowingLifetimeNeverValid`).

## Model

| member | source | states |
|---|---|---|
| `Jwt.AddLong` | src/main/java/com/abernathyclinic/patientHistory/service/JwtService.java:192 | `now + expiration` is Java `long` addition: exact in range, wrapped by 2^64 on overflow |
| `Jwt.ParseClaimsJws` | src/main/java/com/abernathyclinic/patientHistory/service/JwtService.java:113-117 | the library parse succeeds iff the token is non-null, has non-whitespace text, verifies under the key, and its `exp` (if any) is no earlier than now minus the skew; it then yields exactly the signed claims; null, empty or blank gives IllegalArgument |
| `Jwt.TokenClaims` | src/main/java/com/abernathyclinic/patientHistory/service/JwtService.java:189-192 | issued claims have `sub` = username even if the extra claims had one, `iat` = now, `exp` = the computed expiry, and keep every other extra claim unchanged |
| `Jwt.Subject` | src/main/java/com/abernathyclinic/patientHistory/service/JwtService.java:59 | the username read from the claims is absent exactly when there is no `sub`; a string `sub` is returned as it is, a numeric one as its decimal string |
| `Jwt.JwtService.SetSecretKey` | src/main/java/com/abernathyclinic/patientHistory/service/JwtService.java:39-41 | replaces the secret and leaves the lifetime unchanged |
| `Jwt.JwtService.SetJwtExpiration` | src/main/java/com/abernathyclinic/patientHistory/service/JwtService.java:48-50 | replaces the lifetime and leaves the secret unchanged |
| `Jwt.JwtService.GetExpirationTime` | src/main/java/com/abernathyclinic/patientHistory/service/JwtService.java:101-103 | returns the configured lifetime |
| `Jwt.JwtService.SignInKey` | src/main/java/com/abernathyclinic/patientHistory/service/JwtService.java:169-172 | signing and verifying use the base64-decoded current secret; an undecodable secret raises InvalidKey and one under 256 bits raises WeakKey |
| `Jwt.JwtService.IsTokenValid` | src/main/java/com/abernathyclinic/patientHistory/service/JwtService.java:111-122 | never raises; true exactly when the token is non-null and not blank, the key decodes, the token verifies under it, and its `exp` is present and strictly after now (no skew) |
| `Jwt.JwtService.ExtractAllClaims` | src/main/java/com/abernathyclinic/patientHistory/service/JwtService.java:151-162 | null or empty gives IllegalArgument before any parsing, and so does a blank token once the key decodes; otherwise succeeds exactly when the token verifies under the current key and `exp` (if present) is at most 60 s in the past, yielding the signed claims |
| `Jwt.JwtService.ExtractUsername` | src/main/java/com/abernathyclinic/patientHistory/service/JwtService.java:58-73 | succeeds exactly when claim extraction does and yields the claims' subject; otherwise raises extraction's error |
| `Jwt.JwtService.BuildToken` | src/main/java/com/abernathyclinic/patientHistory/service/JwtService.java:182-195 | fails exactly when the key does not decode; otherwise the token is the current key's signature of the issued claims with `exp` = now + expiration |
| `Jwt.JwtService.GenerateTokenWith` | src/main/java/com/abernathyclinic/patientHistory/service/JwtService.java:92-94 | fails exactly when the key does not decode; otherwise signs the extra claims overridden by `sub`, `iat` = now and `exp` = now + the configured lifetime |
| `Jwt.JwtService.GenerateToken` | src/main/java/com/abernathyclinic/patientHistory/service/JwtService.java:81-83 | signs exactly `sub`, `iat`, `exp` (no extra claims) with the configured lifetime under the current key |
| `JwtProperties.EmptyTokenRejected` | src/main/java/com/abernathyclinic/patientHistory/service/JwtService.java:151-154 | a null, empty or blank token is invalid, and extraction raises IllegalArgument for a null or empty one |
| `JwtProperties.ValidTokenIsExtractable` | src/main/java/com/abernathyclinic/patientHistory/service/JwtService.java:111-161 | every token validation accepts is one extraction accepts at the same instant: validation is at least as strict |
| `JwtProperties.SkewOnlyOnExtraction` | src/main/java/com/abernathyclinic/patientHistory/service/JwtService.java:113-118 | a verified token that expired within the last 60 s is invalid yet still extractable |
| `JwtProperties.ExtractionRejectsStaleTokens` | src/main/java/com/abernathyclinic/patientHistory/service/JwtService.java:155-161 | a verified token that expired more than 60 s ago makes extraction raise Expired |
| `JwtProperties.IssuedTokenRoundTrip` | src/main/java/com/abernathyclinic/patientHistory/service/JwtService.java:182-194 | with the same key, extracting the username from an issued token gives the user's name, whatever `sub` the extra claims held, until 60 s past expiry |
| `JwtProperties.GeneratedTokenValidUntilExpiry` | src/main/java/com/abernathyclinic/patientHistory/service/JwtService.java:81-118 | with a non-overflowing lifetime, a generated token is valid exactly at the instants before issue time + lifetime (for a lifetime of zero or less, not valid at or after the issue time) |
| `JwtProperties.OverflowingLifetimeNeverValid` | src/main/java/com/abernathyclinic/patientHistory/service/JwtService.java:192 | when issue time + lifetime overflows a long, the generated token is never valid |
| `JwtProperties.ForeignKeyRejected` | src/main/java/com/abernathyclinic/patientHistory/service/JwtService.java:113-116 | a token signed under a key HMAC-SHA256 tells apart from the current one is refused by validation and by extraction |
| `JwtProperties.ReconfigureService` | src/main/java/com/abernathyclinic/patientHistory/service/JwtService.java:39-50 | after the setters, the key in use is the one decoded from the last secret set, and the reported lifetime is the last one set |
| `JwtFilter.BearerToken` | src/main/java/com/abernathyclinic/patientHistory/security/JwtAuthenticationFilter.java:59 | the candidate token is the header with the seven-character prefix removed: header = "Bearer " + token |
| `JwtFilter.Decide` | src/main/java/com/abernathyclinic/patientHistory/security/JwtAuthenticationFilter.java:53-69 | pass through iff the header is missing or lacks the case-sensitive "Bearer " prefix; reject iff prefixed and the token is invalid; otherwise authenticate with the subject extraction yields, which cannot fail there |
| `JwtFilter.FilterChain.DoFilter` | src/main/java/com/abernathyclinic/patientHistory/security/JwtAuthenticationFilter.java:55 | a downstream call is recorded with the request and the authentication in place at that moment |
| `JwtFilter.JwtAuthenticationFilter.DoFilterInternal` | src/main/java/com/abernathyclinic/patientHistory/security/JwtAuthenticationFilter.java:51-72 | the context gets (subject, null credentials, no authorities) only on authentication; status 401 only on rejection; downstream runs exactly once unless rejected, and then not at all |
| `JwtFilter.BarePrefixRejected` | src/main/java/com/abernathyclinic/patientHistory/security/JwtAuthenticationFilter.java:59-68 | a header of exactly "Bearer " yields the empty token and is rejected |
| `JwtFilter.LowerCaseSchemePassesThrough` | src/main/java/com/abernathyclinic/patientHistory/security/JwtAuthenticationFilter.java:54-56 | the prefix match is case-sensitive: "bearer ..." passes through without a principal |
| `JwtFilter.TokenFollowsPrefix` | src/main/java/com/abernathyclinic/patientHistory/security/JwtAuthenticationFilter.java:59-68 | for "Bearer " + t, the decision is decided by t alone: authenticate with t's subject if t is valid, reject otherwise |
| `JwtFilter.IssuedTokenAuthenticates` | src/main/java/com/abernathyclinic/patientHistory/security/JwtAuthenticationFilter.java:59-65 | a token issued by the service, presented before expiry, authenticates the user it was issued for |
| `SecurityConfig.SecurityFilterChain` | src/main/java/com/abernathyclinic/patientHistory/security/SecurityConfig.java:51-57 | CSRF off, every request authenticated, stateless sessions; the default logout stage, then the JWT gate before the username/password stage, which is before authorization |
| `SecurityConfig.RunStages` | src/main/java/com/abernathyclinic/patientHistory/security/SecurityConfig.java:53-56 | under the authenticated rule, a request reaching the handler past an authorization stage carries an authentication; a set context is never cleared; the logout redirect only from a logout stage on its route, 401 only from the gate, denial only from the rule |
| `SecurityConfig.Serve` | src/main/java/com/abernathyclinic/patientHistory/security/SecurityConfig.java:55 | a stateless chain starts every request from an empty context; other policies start from the session's authentication |
| `SecurityConfig.ConfiguredChainOutcome` | src/main/java/com/abernathyclinic/patientHistory/security/SecurityConfig.java:53-56 | with the configured chain: a logout request is redirected; otherwise no usable bearer header means denial, a rejected token means 401, a valid one reaches the handler with its subject |
| `SecurityConfig.LogoutAnsweredBeforeGate` | src/main/java/com/abernathyclinic/patientHistory/security/SecurityConfig.java:52-56 | with CSRF disabled, a request is answered by the logout redirect exactly when it is GET, POST, PUT or DELETE on `/logout`, whatever its header or the session |
| `SecurityConfig.AfterGate` | src/main/java/com/abernathyclinic/patientHistory/security/SecurityConfig.java:53-54 | after the gate, a request without authentication is denied and one with it is handed over unchanged |
| `SecurityConfig.HandlerOnlyWithPrincipal` | src/main/java/com/abernathyclinic/patientHistory/security/SecurityConfig.java:53-56 | reaching a handler implies the request was not the logout request and the gate authenticated it, with the token's subject as principal |
| `SecurityConfig.OutcomeIndependentOfSessionAndRoute` | src/main/java/com/abernathyclinic/patientHistory/security/SecurityConfig.java:53-55 | stateless, and no exempt route but logout: among requests that are both logout requests or both not, the outcome depends only on the request's own header |
| `SecurityConfig.MissingBearerDenied` | src/main/java/com/abernathyclinic/patientHistory/security/SecurityConfig.java:53-54 | a request without a usable bearer header never reaches a handler: it is denied, or redirected if it is the logout request |
| `SecurityConfig.GateAfterAuthorizationWouldDeny` | src/main/java/com/abernathyclinic/patientHistory/security/SecurityConfig.java:56 | the gate-first order matters: with authorization first, even a valid token is denied |
| `SecurityConfig.SessionPolicyWouldCarryAuthentication` | src/main/java/com/abernathyclinic/patientHistory/security/SecurityConfig.java:55 | statelessness matters: a session-keeping policy would let a header-less request (other than logout) through on an earlier authentication |
| `SecurityConfig.IssuedTokenReachesHandler` | src/main/java/com/abernathyclinic/patientHistory/security/SecurityConfig.java:53-56 | end to end, "Bearer " + an unexpired issued token reaches the handler as the user it was issued for, on every route but logout and whatever the session held |
| `HistoryStore.HistoryRepository.FindByPatId` | src/main/java/com/abernathyclinic/patientHistory/repository/HistoryRepository.java:13 | returns exactly the stored documents with that patient id, each document once |
| `HistoryStore.HistoryRepository.FindById` | src/main/java/com/abernathyclinic/patientHistory/repository/HistoryRepository.java:16 | empty exactly when no stored document has the id; otherwise a stored document with that id |
| `HistoryStore.HistoryRepository.ExistsById` | src/main/java/com/abernathyclinic/patientHistory/service/HistoryService.java:71 | true exactly when some stored document has the id |
| `HistoryStore.HistoryRepository.Save` | src/main/java/com/abernathyclinic/patientHistory/service/HistoryService.java:41 | an entity with an id replaces the document under it; one without is inserted under the generated id, or refused if that id is taken; a database failure changes nothing |
| `HistoryStore.HistoryRepository.DeleteById` | src/main/java/com/abernathyclinic/patientHistory/service/HistoryService.java:74 | removes exactly the document under the id |
| `HistoryServices.HistoryService.GetHistoryByPatientId` | src/main/java/com/abernathyclinic/patientHistory/service/HistoryService.java:29-31 | the result holds exactly the patient's stored notes, each once |
| `HistoryServices.HistoryService.AddNoteToPatientHistory` | src/main/java/com/abernathyclinic/patientHistory/service/HistoryService.java:39-42 | the note is filed under the given patient id whatever it carried, keeping its own id or receiving the generated one; on success it is stored, listed for that patient, and nothing else changed; on failure the store is unchanged |
| `HistoryServices.HistoryService.SaveHistory` | src/main/java/com/abernathyclinic/patientHistory/service/HistoryService.java:50-52 | saves or replaces the record and returns it with its id; on failure the store is unchanged |
| `HistoryServices.HistoryService.GetHistoryById` | src/main/java/com/abernathyclinic/patientHistory/service/HistoryService.java:60-62 | empty exactly when no stored record has the id |
| `HistoryServices.HistoryService.DeleteHistoryById` | src/main/java/com/abernathyclinic/patientHistory/service/HistoryService.java:70-75 | an id not stored raises IllegalArgument and leaves the store unchanged; a stored id removes exactly that record |
| `HistoryServices.AddedNoteIsListed` | src/main/java/com/abernathyclinic/patientHistory/service/HistoryService.java:29-42 | after a successful add, the note as filed (under the patient, with its own or the generated id) is among the patient's listed notes |
| `HistoryServices.SavedRecordIsFound` | src/main/java/com/abernathyclinic/patientHistory/service/HistoryService.java:50-62 | after a successful save, the saved record is the given one (given the generated id if it had none), and looking up its id finds exactly it |
| `Controllers.HistoryListResponse` | src/main/java/com/abernathyclinic/patientHistory/controller/HistoryController.java:33-37 | 204 with no body iff the list is empty, otherwise 200 with exactly the list |
| `Controllers.HistoryController.GetPatientHistory` | src/main/java/com/abernathyclinic/patientHistory/controller/HistoryController.java:31-38 | 204 iff the patient has no stored note; otherwise 200 with exactly the patient's notes, each document once |
| `Controllers.HistoryController.AddNoteToPatientHistory` | src/main/java/com/abernathyclinic/patientHistory/controller/HistoryController.java:48-58 | passes the path id and the body to the service; 200 when it completes, with the note filed under the patient (its own id or the generated one) and nothing else changed; 500 (not propagated) for any exception, with the store then unchanged |

## Left out

- JWT cryptography and encoding are not modelled: HMAC-SHA256, base64url segments, JSON claims and base64 decoding of the secret. The library is the abstract `Codec`, and its guarantees are the precondition `Sound`. Dafny cannot check that a real HMAC meets them, and the project gives no concrete codec that satisfies `Sound`.
- The wall clock is the explicit parameter `now`. The source reads the clock separately for `iat` and `exp`, and separately in `isTokenValid` and `extractUsername`. The model uses one reading per operation and one per request.
- The library stores `iat` and `exp` in whole seconds. The model keeps milliseconds, so the round trip is exact here but truncates to the second in the library.
- The library's `nbf` (not-before) check is left out. Tokens this service issues never carry `nbf` unless the extra claims add one.
- The library parses a string `exp` as a date. The model treats a non-numeric `exp` or `iat` as absent. Claim values other than strings and integers (booleans, lists, objects) are not modelled.
- `JwtProperties.ForeignKeyRejected`: covers only keys that HMAC-SHA256 tells apart after zero-padding to its 64-byte block. Keys that differ only by trailing zero bytes sign alike, and keys longer than one block are hashed first; nothing is claimed for either.
- A token validation accepts is not shown to be the current key's own encoding of its claims: the library also accepts other header fields, other JSON orderings and HS384/HS512 tokens under a long enough key, so no lemma states it.
- `isTokenExpired` and `extractExpiration` are private and never called, so they are left out. The generic resolver of `extractClaim` is reduced to the subject accessor, the only one used.
- Servlet and Spring plumbing is not modelled: header-name case-insensitivity, multiple headers, the thread-local context holder, bean wiring, the unused `passwordEncoder` and `authenticationManager` beans, and CSRF handling beyond the flag. The status Spring sends for `AccessDenied` is not modelled.
- `SecurityConfig.SecurityFilterChain`: the built chain is reduced to its four relevant stages. Spring's other default filters (anonymous authentication, exception translation, headers, the request cache) are not modelled, nor what the logout stage's handlers do beyond answering with a redirect.
- MongoDB is not modelled: query derivation, document mapping, and the form of generated ids. Id generation is the parameter `generatedId`, and any database failure is the parameter `dbFailure`.
- `HistoryServices.HistoryService.AddNoteToPatientHistory`: the source mutates the caller's note object in place (`setPatId`, and the id the store assigns). The model treats `History` as a value and returns the stored note; the controller does not reuse the object, so no aliasing is observable.
- `HistoryStore.HistoryRepository.DeleteById`, `ExistsById`, `FindByPatId` and `FindById` do not model database failures; only `Save` does, because it is the only call the controller maps to a status. A failing `findByPatId` would propagate uncaught from `getPatientHistory` (HistoryController.java:31-38) and be answered by Spring's default error handling, which the model does not cover.
- Concurrency between requests is not modelled. Each request is modelled on its own, and the mutable token configuration is never changed during one.
