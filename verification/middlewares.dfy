/** The two authentication middlewares: the function-style `auth_middleware`
    registered by the application factory and the class-style
    `AuthMiddleware`. Both let public paths through, demand the
    `access_token` cookie elsewhere and store the decoded claims on the
    request. Token decoding is a parameter. */
module Middlewares {
  import opened Wrappers

  datatype Claims = Claims(userId: int, role: string)

  /** What `decode_access_token` does with a token: return the claims, or
      raise a plain `Exception` with one of two texts. */
  datatype Decoded = Decoded(claims: Claims) | DecodeRaised(text: string)

  datatype Request = Request(httpMethod: string, path: string, accessToken: Option<string>)

  /** How a middleware finishes: hand the request on (with the claims
      written to `request.state.user`, or nothing written), answer with a
      JSON error, raise an `HTTPException`, or let an exception escape. */
  datatype Reply =
    | Forward(user: Option<Claims>)
    | Respond(status: int, error: string)
    | RaiseHttp(status: int, error: string)
    | Escapes(text: string)

  const PublicPaths: set<string> := {"/api/v1/auth/register", "/api/v1/auth/login", "/docs", "/openapi.json"}

  /** `auth_middleware` as written: it expects a failed decode to return
      `None`, but decoding raises instead, so a bad or expired token is never
      answered with "not valid token". */
  function AuthMiddlewareAsWritten(req: Request, decode: string -> Decoded): Reply
  {
    if req.httpMethod == "OPTIONS" then Forward(None)
    else if req.path in PublicPaths then Forward(None)
    else if req.accessToken.None? then Respond(401, "not authenticated")
    else
      match decode(req.accessToken.value)
      case DecodeRaised(text) => Escapes(text)
      case Decoded(claims) => Forward(Some(claims))
  }

  /** `auth_middleware` with the failed decode answered the way its
      `payload is None` branch intends. */
  function AuthMiddleware(req: Request, decode: string -> Decoded): Reply
  {
    if req.httpMethod == "OPTIONS" then Forward(None)
    else if req.path in PublicPaths then Forward(None)
    else if req.accessToken.None? then Respond(401, "not authenticated")
    else
      match decode(req.accessToken.value)
      case DecodeRaised(_) => Respond(401, "not valid token")
      case Decoded(claims) => Forward(Some(claims))
  }

  /** `AuthMiddleware.dispatch`. */
  function Dispatch(req: Request, decode: string -> Decoded): Reply
  {
    if req.path in PublicPaths then Forward(None)
    else if req.accessToken.None? then RaiseHttp(401, "not authenticated")
    else
      match decode(req.accessToken.value)
      case DecodeRaised(_) => RaiseHttp(401, "not valid token")
      case Decoded(claims) => Forward(Some(claims))
  }

  /** A request that carries a token the decoder rejects lets the decoder's
      exception escape from the middleware as written. */
  lemma BadTokenEscapesAsWritten(req: Request, decode: string -> Decoded)
    requires req.httpMethod != "OPTIONS" && req.path !in PublicPaths
    requires req.accessToken.Some? && decode(req.accessToken.value).DecodeRaised?
    ensures AuthMiddlewareAsWritten(req, decode) == Escapes(decode(req.accessToken.value).text)
    ensures !AuthMiddlewareAsWritten(req, decode).Respond?
  {
  }

  /** The corrected middleware rejects the same request with a 401, and
      otherwise agrees with the code as written. */
  lemma BadTokenRejected(req: Request, decode: string -> Decoded)
    ensures req.httpMethod != "OPTIONS" && req.path !in PublicPaths && req.accessToken.Some?
              && decode(req.accessToken.value).DecodeRaised?
            ==> AuthMiddleware(req, decode) == Respond(401, "not valid token")
    ensures !AuthMiddlewareAsWritten(req, decode).Escapes? ==> AuthMiddleware(req, decode) == AuthMiddlewareAsWritten(req, decode)
  {
  }

  /** A request reaches the handlers with a user exactly when it carried a
      token that decodes to that user; without a user only as an OPTIONS
      request or on a public path. */
  lemma ForwardedUserIsDecoded(req: Request, decode: string -> Decoded, c: Claims)
    ensures AuthMiddleware(req, decode) == Forward(Some(c)) <==>
      req.httpMethod != "OPTIONS" && req.path !in PublicPaths &&
      req.accessToken.Some? && decode(req.accessToken.value) == Decoded(c)
    ensures AuthMiddleware(req, decode) == Forward(None) <==> req.httpMethod == "OPTIONS" || req.path in PublicPaths
    ensures Dispatch(req, decode) == Forward(Some(c)) <==>
      req.path !in PublicPaths && req.accessToken.Some? && decode(req.accessToken.value) == Decoded(c)
    ensures Dispatch(req, decode) == Forward(None) <==> req.path in PublicPaths
  {
  }

  /** The class-style middleware and the corrected function-style one pass
      and refuse the same non-OPTIONS requests, with the same status and
      error text; the function-style one answers where the class-style one
      raises. An OPTIONS request to a private path without a cookie is where
      they part. The function-style middleware as written parts from the
      class-style one also on a token the decoder rejects: its exception
      escapes, where the class-style one raises a 401. */
  lemma MiddlewaresAgree(req: Request, decode: string -> Decoded)
    ensures req.httpMethod != "OPTIONS" ==>
      match Dispatch(req, decode)
      case Forward(u) => AuthMiddleware(req, decode) == Forward(u)
      case RaiseHttp(s, e) => AuthMiddleware(req, decode) == Respond(s, e)
      case _ => false
    ensures req.httpMethod == "OPTIONS" && req.path !in PublicPaths && req.accessToken.None? ==>
      AuthMiddleware(req, decode) == Forward(None) && Dispatch(req, decode) == RaiseHttp(401, "not authenticated")
    ensures (req.httpMethod != "OPTIONS" && req.path !in PublicPaths && req.accessToken.Some? &&
             decode(req.accessToken.value).DecodeRaised?) ==>
      AuthMiddlewareAsWritten(req, decode).Escapes? && Dispatch(req, decode) == RaiseHttp(401, "not valid token")
  {
  }
}
