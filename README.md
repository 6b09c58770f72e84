# Gateway and image-service authorization, modelled in Dafny

This project models the decision logic of a small microservice system:

- the **API gateway** (`services/gateway_js/gw.js`). Its `verifyJWT` middleware lets every URL starting with `/auth` through unchecked. It answers 401 "Missing token" when the `Authorization` header is missing or empty. It answers 403 "Invalid token" when `jwt.verify` throws on `authHeader.split(" ")[1]`. Otherwise it writes the token's subject into the request's `x-user` header. The router that follows picks the first entry of the ordered table `/auth`, `/texts`, `/images/upload` whose prefix starts the URL. It answers 404 "Route not allowed" when none does, and otherwise proxies to that entry's backend.
- the **image service** (`services/images_js/image.js`). Its own `verifyJWT` also answers 401 when the token piece of the header is missing or empty. On success it stores the subject in `req.userId`. The upload handler answers with the URL `PUBLIC_BASE_URL + "/" + filename`.

Modules:

- `Wrappers`: `Option`. `None` stands for JavaScript's `undefined`.
- `JsString`: `startsWith`, and `split` with a one-character separator. `Split` is proved to be the exact inverse of `Join` on separator-free pieces. `SecondPiece` models `split(" ")[1]`.
- `Jwt`: token verification as an oracle `string -> Option<Subject>`. `Verify` adds the library's own guard: an `undefined` or empty token is rejected before the oracle is consulted.
- `Http`: header maps, JavaScript truthiness, and the two middleware outcomes `next()` and `res.status(..).json(..)`.
- `Gateway`: the route table and `FindRoute`. The spec functions are `Authorize`, `RouteHandler` and `Gateway`. The class `Request` holds the live header map. `VerifyJwt` and `HandleRequest` are methods that update that map and are proved against the spec functions.
- `Images`: the image `verifyJWT` as a method on `ImageRequest` that assigns `userId`, plus the upload URL and the upload handler.
- `Contrast`: where the two middlewares disagree and where they agree.

The model follows the code, including where a gateway might be expected to behave otherwise:

- At the gateway, a header whose token piece is undefined or empty reaches verification and is answered 403.
- The gateway checks the token before it routes, so an unauthenticated request to an unknown path is answered 401.
- Routing takes the first entry in declaration order whose prefix starts the URL.
- The bypass is a raw `startsWith("/auth")`, so `/authxyz` also bypasses.
- The gateway does nothing of its own when a backend is unreachable; failures are whatever the proxy library does.

## Model

| member | source | states |
|---|---|---|
| JsString.StartsWith | services/gateway_js/gw.js:18 | `url.startsWith(prefix)` as a plain character-wise prefix test; the bypass (`AuthBypass`) and the route lookup (`FindRoute`) are stated with it |
| JsString.Split | services/gateway_js/gw.js:23 | `split` yields at least one piece, no piece contains the separator, and joining the pieces with the separator gives back the input |
| JsString.SplitJoin | services/gateway_js/gw.js:23 | splitting the join of separator-free pieces gives back exactly those pieces, so `Split` is the unique such decomposition |
| JsString.SecondPiece | services/gateway_js/gw.js:23 | `authHeader.split(" ")[1]`, undefined when the split has one piece; characterised by `SecondPieceAbsent`, `SecondPieceOf` and `NoTokenPiece` |
| JsString.SecondPieceAbsent | services/gateway_js/gw.js:23 | `split(" ")[1]` is undefined exactly when the header contains no space |
| JsString.SecondPieceOf | services/images_js/image.js:34 | `split(" ")[1]` is the text between the first space and the next space or the end, whatever the first word is |
| JsString.NoTokenPiece | services/images_js/image.js:34-35 | `split(" ")[1]` is undefined or empty exactly when the header has no space, or its first space is followed by another space or ends the header (as in "Bearer ") |
| Jwt.Verify | services/gateway_js/gw.js:25 | an undefined or empty token never verifies; a present, non-empty token yields exactly what the verifier yields |
| Gateway.Authorize | services/gateway_js/gw.js:17-31 | the middleware's decision: bypass, 401, 403 or the verified subject; characterised by `AuthBypass`, `MissingHeaderUnauthenticated`, `RejectedTokenForbidden`, `MalformedHeaderForbidden` and `AuthenticatedRouting` |
| Gateway.WithIdentity | services/gateway_js/gw.js:26 | after the write, `x-user` holds the subject whatever the client sent, and every other header is present and unchanged exactly as before |
| Gateway.FindRoute | services/gateway_js/gw.js:37-39 | the result is the index of an entry whose prefix starts the URL, with no earlier entry matching; none is returned only when no entry matches |
| Gateway.RouteHandler | services/gateway_js/gw.js:36-45 | the router: 404 "Route not allowed" when `FindRoute` finds nothing, else forward to the found entry's URL with the request's headers; characterised by `ForwardTarget` and `NotFoundExactly` |
| Gateway.Gateway | services/gateway_js/gw.js:33-45 | the middleware, then the router when it calls `next()`, on the headers it left; characterised by the lemmas below and implemented by `HandleRequest` |
| Gateway.RoutesDisjoint | services/gateway_js/gw.js:11-15 | no URL starts with two different prefixes of the table |
| Gateway.FindRouteExact | services/gateway_js/gw.js:11-15 | for this table an entry is chosen exactly when its prefix starts the URL, so the first match is the only match |
| Gateway.FindRouteOrderIrrelevant | services/gateway_js/gw.js:37-39 | the lookup over any reordering of the table finds a match exactly when the declared table does, and then the same entry |
| Gateway.Request.constructor | services/gateway_js/gw.js:17 | a request starts with the URL and header map it was received with |
| Gateway.VerifyJwt | services/gateway_js/gw.js:17-31 | the middleware's result is the `Authorize` decision; the header map gains the verified subject under `x-user` on success and is otherwise left as it was |
| Gateway.HandleRequest | services/gateway_js/gw.js:34-45 | middleware then router on the same live request produce exactly one response, the one `Gateway` specifies, and leave the headers with the identity written |
| Gateway.AuthBypass | services/gateway_js/gw.js:18 | any URL starting with "/auth" skips all token checks and is forwarded to http://localhost:3000 with its headers untouched, for every verifier, so it is never 401, 403 or 404 |
| Gateway.AuthxyzBypasses | services/gateway_js/gw.js:18 | "/authxyz" bypasses the token check and goes to the auth backend |
| Gateway.MissingHeaderUnauthenticated | services/gateway_js/gw.js:20-21 | outside "/auth", a missing or empty Authorization header is 401 "Missing token" whatever the verifier, so nothing is routed or forwarded |
| Gateway.AuthBeforeRouting | services/gateway_js/gw.js:34-41 | an unmatched URL outside "/auth" without a token is answered 401, although the router alone would answer 404 |
| Gateway.RejectedTokenForbidden | services/gateway_js/gw.js:23-30 | outside "/auth", a present header whose token piece fails verification is 403 "Invalid token" |
| Gateway.MalformedHeaderForbidden | services/gateway_js/gw.js:23-30 | outside "/auth", a non-empty header whose token piece is undefined (no space) or empty (double or trailing space) is 403 for every verifier |
| Gateway.AuthenticatedRouting | services/gateway_js/gw.js:25-27 | a verified token leads to the first matching backend with `x-user` set to its subject, or to 404 "Route not allowed" when no prefix matches |
| Gateway.IdentityIsAuthoritative | services/gateway_js/gw.js:25-27 | outside "/auth", every forwarded request carries in `x-user` the subject of its verified token and no client-supplied value, and has the same other header names as sent |
| Gateway.NotFoundExactly | services/gateway_js/gw.js:36-41 | the answer is 404 exactly when the request authenticated and no prefix matches |
| Gateway.ForwardTarget | services/gateway_js/gw.js:43-44 | a request is forwarded exactly when the middleware passes it and a prefix matches, to that first matching entry's URL, with the headers the middleware left |
| Images.ImageRequest.constructor | services/images_js/image.js:30 | a request starts with its headers and no `userId` |
| Images.Authorize | services/images_js/image.js:30-44 | the middleware's decision: 401, 403 or the verified subject; characterised by `TokenMissingExactly`, `RejectedTokenForbidden` and `AuthenticatedExactly` |
| Images.VerifyJwt | services/images_js/image.js:30-44 | the middleware's result is the `Authorize` decision; `userId` becomes the subject on success and is left unset on every rejection |
| Images.MissingHeaderUnauthenticated | services/images_js/image.js:31-32 | a missing or empty Authorization header is 401 "Missing token" whatever the verifier |
| Images.MalformedHeaderUnauthenticated | services/images_js/image.js:34-35 | a non-empty header whose token piece is undefined or empty (no space, a double space, a trailing space) is 401 for every verifier, so it never reaches verification |
| Images.TokenMissingExactly | services/images_js/image.js:31-35 | the answer is 401 "Missing token" exactly when the header is missing or empty or its token piece is undefined or empty |
| Images.RejectedTokenForbidden | services/images_js/image.js:37-43 | a present, non-empty token piece the verifier rejects is 403 "Invalid token" |
| Images.AuthenticatedExactly | services/images_js/image.js:37-40 | `next()` is reached with subject s exactly when the header's token piece is non-empty and verifies to s |
| Images.SchemeNotChecked | services/images_js/image.js:34-38 | any first word, not only "Bearer", followed by one space and a token is decided by the token's verification alone |
| Images.EnvText | services/images_js/image.js:51 | `${PUBLIC_BASE_URL}` in a template literal: the variable's text, or "undefined" when it is unset; used by `UploadUrlShape` |
| Images.UploadUrl | services/images_js/image.js:51 | the URL starts with the public base followed by "/", and the rest of it is exactly the stored file name |
| Images.UploadHandler | services/images_js/image.js:47-63 | 500 "Database or upload error" when no file was stored or the insert fails, otherwise the upload URL; characterised by `UploadUrlShape` |
| Images.UploadUrlShape | services/images_js/image.js:47-58 | a stored upload whose insert succeeds is answered with the public base (or "undefined" when unset), "/", and the stored name |
| Images.UploadUrlLastSegment | services/images_js/image.js:51 | a stored name without "/" is the last "/"-separated segment of its URL |
| Images.UploadUrlInjective | services/images_js/image.js:51 | different stored names under one base give different URLs |
| Contrast.MalformedHeaderDiffers | services/gateway_js/gw.js:23-30 | a non-empty header whose token piece is undefined or empty is 403 at the gateway but 401 at the image service |
| Contrast.WellFormedHeaderAgrees | services/images_js/image.js:34-43 | on a header made of one word, one space and a non-empty token, the gateway and the image service reach the same verdict and subject |

## Left out

- Signature and expiry checking inside `jwt.verify`, and `jwt.sign`: these are crypto library calls, modelled only as the verifier oracle.
- `proxy.web` (services/gateway_js/gw.js:44): the network forwarding itself. `Forward` records the target and the headers handed to the proxy. Relaying the backend's answer, and the failure modes of the connection, are not modelled.
- The `express.json()` body parsing and the `listen` calls are server plumbing and are not modelled.
- Token payloads: the subject is taken as the text of the `sub` claim. The auth service signs a numeric user id, and Node sends it as text. A payload without `sub` is not modelled; the gateway would then set `x-user` to undefined.
- Header parsing by Node is not modelled: the lower-casing of header names, and the dropping of duplicate Authorization headers, are taken as already done.
- Images.UploadHandler: the database insert of `(userId, filename, url)` is I/O. Whether it succeeds is a parameter, and the stored row is not modelled.
- The multer file-name generator (services/images_js/image.js:19-27) is not modelled: it depends on the clock, on randomness and on `path.extname`.
- The file-serving route `GET /images/:filename` is not modelled: it is file-system I/O.
- Contrast: one verifier stands for both services, which presumes they read the same signing secret and check expiry at the same moment.
- services/auth_js/auth.js, services/text_js/text.js and rustgit/src/main.rs are not part of this model. Their logic is SQL and password hashing.
