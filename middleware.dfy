/** Request middleware (`utils/middleware.js`): bearer-token extraction,
    the central error translator, route gating by token, and the 404
    fallback. */
module Middleware {
  import opened Wrappers

  // ------------------------------------------------------- string helpers

  predicate StartsWith(s: string, prefix: string)
  {
    |prefix| <= |s| && s[..|prefix|] == prefix
  }

  /** `pattern` occurs in `s` starting at position `j`. */
  predicate OccursAt(s: string, pattern: string, j: int)
  {
    0 <= j && j + |pattern| <= |s| && s[j..j + |pattern|] == pattern
  }

  /** Occurrences in `s` past its first character are the occurrences in `s[1..]`, shifted by one. */
  lemma OccursAtTail(s: string, pattern: string, j: int)
    requires |s| > 0 && 1 <= j
    ensures OccursAt(s, pattern, j) <==> OccursAt(s[1..], pattern, j - 1)
  {
  }

  /** `s.indexOf(pattern)`: the first position at which `pattern` occurs. */
  function IndexOf(s: string, pattern: string): (r: Option<nat>)
    ensures r.Some? ==> OccursAt(s, pattern, r.value)
    ensures r.Some? ==> forall j :: 0 <= j < r.value ==> !OccursAt(s, pattern, j)
    ensures r.None? ==> forall j :: !OccursAt(s, pattern, j)
    decreases |s|
  {
    if |s| < |pattern| then None
    else if s[..|pattern|] == pattern then Some(0)
    else
      assert forall j :: 1 <= j ==> (OccursAt(s, pattern, j) <==> OccursAt(s[1..], pattern, j - 1)) by {
        forall j | 1 <= j ensures OccursAt(s, pattern, j) <==> OccursAt(s[1..], pattern, j - 1) {
          OccursAtTail(s, pattern, j);
        }
      }
      match IndexOf(s[1..], pattern)
      case None => None
      case Some(i) => Some(i + 1)
  }

  /** `s.includes(pattern)`. */
  predicate Contains(s: string, pattern: string)
  {
    IndexOf(s, pattern).Some?
  }

  /** Any occurrence makes `includes` true, wherever it sits. */
  lemma {:induction false} ContainsInfix(before: string, pattern: string, after: string)
    ensures Contains(before + pattern + after, pattern)
  {
    var s := before + pattern + after;
    assert s[|before|..|before| + |pattern|] == pattern;
    assert OccursAt(s, pattern, |before|);
  }

  /** `s.replace(pattern, replacement)` with a string pattern: only the first
      occurrence is replaced, and nothing happens when there is none. */
  function ReplaceFirst(s: string, pattern: string, replacement: string): string
  {
    match IndexOf(s, pattern)
    case None => s
    case Some(i) => s[..i] + replacement + s[i + |pattern|..]
  }

  // --------------------------------------------------------- getTokenFrom

  const BearerPrefix: string := "Bearer "

  /** `getTokenFrom`: the `authorization` header with its leading `"Bearer "`
      removed, or `null` when the header is absent, empty or has another
      scheme (the comparison is case-sensitive and includes the space). */
  function GetTokenFrom(authorization: Option<string>): (token: Option<string>)
    ensures token.Some? <==> authorization.Some? && StartsWith(authorization.value, BearerPrefix)
    ensures token.Some? ==> authorization.value == BearerPrefix + token.value
  {
    if authorization.Some? && authorization.value != "" && StartsWith(authorization.value, BearerPrefix) then
      var h := authorization.value;
      assert IndexOf(h, BearerPrefix) == Some(0);
      assert h == BearerPrefix + h[|BearerPrefix|..];
      Some(ReplaceFirst(h, BearerPrefix, ""))
    else
      None
  }

  /** Round trip: the token put behind `"Bearer "` comes back unchanged, even
      when it itself begins with `"Bearer "` (only the leading prefix goes). */
  lemma GetTokenFromRoundTrip(token: string)
    ensures GetTokenFrom(Some(BearerPrefix + token)) == Some(token)
  {
  }

  // --------------------------------------------------------- errorHandler

  /** An error as the handler reads it: its `name` and its `message`. */
  datatype Error = Error(name: string, message: string)

  /** A JSON response of the form `{ error: message }`. */
  datatype JsonError = JsonError(status: nat, error: string)

  /** The mutable part of an Express response: what has been sent, if anything. */
  class Response {
    var sent: Option<JsonError>

    constructor ()
      ensures sent == None
    {
      sent := None;
    }
  }

  const DuplicateKeyMarker: string := "E11000 duplicate key error"

  /** A unique-index violation reported by the database driver. */
  predicate IsDuplicateKey(e: Error)
  {
    e.name == "MongoServerError" && Contains(e.message, DuplicateKeyMarker)
  }

  /** The response `errorHandler` sends for `e`, if any. */
  function ErrorResponse(e: Error): (r: Option<JsonError>)
    ensures r.Some? <==> e.name in {"CastError", "ValidationError", "JsonWebTokenError"} || IsDuplicateKey(e)
    ensures r.Some? ==> r.value.status == 400
    ensures e.name == "CastError" ==> r == Some(JsonError(400, "malformatted id"))
    ensures e.name == "ValidationError" ==> r == Some(JsonError(400, e.message))
    ensures IsDuplicateKey(e) ==> r == Some(JsonError(400, "expected `username` to be unique"))
    ensures e.name == "JsonWebTokenError" ==> r == Some(JsonError(400, "token missing or invalid"))
  {
    if e.name == "CastError" then Some(JsonError(400, "malformatted id"))
    else if e.name == "ValidationError" then Some(JsonError(400, e.message))
    else if IsDuplicateKey(e) then Some(JsonError(400, "expected `username` to be unique"))
    else if e.name == "JsonWebTokenError" then Some(JsonError(400, "token missing or invalid"))
    else None
  }

  /** `errorHandler`: sends the translated response, if there is one, and
      passes the error on with `next(error)` except in the duplicate-key case,
      which returns before reaching `next`. */
  method ErrorHandler(error: Error, response: Response) returns (forwarded: Option<Error>)
    modifies response
    ensures response.sent == if ErrorResponse(error).Some? then ErrorResponse(error) else old(response.sent)
    ensures forwarded == if IsDuplicateKey(error) then None else Some(error)
  {
    if error.name == "CastError" {
      response.sent := Some(JsonError(400, "malformatted id"));
    } else if error.name == "ValidationError" {
      response.sent := Some(JsonError(400, error.message));
    } else if error.name == "MongoServerError" && Contains(error.message, DuplicateKeyMarker) {
      response.sent := Some(JsonError(400, "expected `username` to be unique"));
      return None;
    } else if error.name == "JsonWebTokenError" {
      response.sent := Some(JsonError(400, "token missing or invalid"));
    }
    forwarded := Some(error);
  }

  /** A driver error whose message carries the E11000 marker anywhere is
      answered with the uniqueness message and is not forwarded. */
  lemma DuplicateKeyAnswered(before: string, after: string)
    ensures var e := Error("MongoServerError", before + DuplicateKeyMarker + after);
            && IsDuplicateKey(e)
            && ErrorResponse(e) == Some(JsonError(400, "expected `username` to be unique"))
  {
    ContainsInfix(before, DuplicateKeyMarker, after);
  }

  // ------------------------------------------------------ unknownEndpoint

  /** `unknownEndpoint`: always 404 `{ error: 'unknown endpoint' }`. */
  method UnknownEndpoint(response: Response)
    modifies response
    ensures response.sent == Some(JsonError(404, "unknown endpoint"))
  {
    response.sent := Some(JsonError(404, "unknown endpoint"));
  }

  // -------------------------------------------------- tokenAuthentication

  /** The payload `jwt.verify` returns; either claim may be missing. */
  datatype Decoded = Decoded(username: Option<string>, id: Option<string>)

  /** The `{ username, id }` object attached as `request.user`. */
  datatype Identity = Identity(username: Option<string>, id: string)

  /** The parts of an Express request the middleware reads, and the
      `user` slot it writes. */
  class Request {
    const verb: string
    const path: string
    const authorization: Option<string>
    var user: Option<Identity>

    constructor (verb: string, path: string, authorization: Option<string>)
      ensures this.verb == verb && this.path == path
      ensures this.authorization == authorization && user == None
    {
      this.verb := verb;
      this.path := path;
      this.authorization := authorization;
      user := None;
    }
  }

  /** `jwt.verify` with the server's secret, left uninterpreted: it decodes a
      token or fails with a message. */
  type Verifier = string -> Result<Decoded>

  /** Requests that must carry a token: everything but reads and the login path. */
  predicate RequiresToken(verb: string, path: string)
  {
    verb != "GET" && path != "/api/login/"
  }

  /** What `tokenAuthentication` decides for one request. */
  datatype AuthDecision =
    | Skip                        // no verification; `next()` with `request.user` untouched
    | Attach(user: Identity)      // `request.user = user`, then `next()`
    | Reject(reply: JsonError)    // a 401 is sent and `next` is not called
    | Throw(error: Error)         // `jwt.verify` threw; Express hands the error on

  /** The decision of `tokenAuthentication`. `jwt.verify(null)` throws a
      `JsonWebTokenError` ("jwt must be provided"), and so does a token that
      fails to verify. A missing or empty `id` claim is falsy. */
  function Authenticate(verb: string, path: string, authorization: Option<string>, verify: Verifier): (d: AuthDecision)
    ensures d.Skip? <==> !RequiresToken(verb, path)
    ensures d.Reject? ==> d.reply == JsonError(401, "token invalid")
    ensures RequiresToken(verb, path) && GetTokenFrom(authorization).None? ==> d.Throw?
    ensures RequiresToken(verb, path) && GetTokenFrom(authorization).Some? ==>
              var verified := verify(GetTokenFrom(authorization).value);
              && (verified.Failure? ==> d.Throw?)
              && (verified.Ok? && (verified.value.id.None? || verified.value.id.value == "") ==>
                    d == Reject(JsonError(401, "token invalid")))
    ensures d.Throw? ==> d.error.name == "JsonWebTokenError"
    ensures d.Attach? ==>
              && GetTokenFrom(authorization).Some?
              && authorization == Some(BearerPrefix + GetTokenFrom(authorization).value)
              && verify(GetTokenFrom(authorization).value) == Ok(Decoded(d.user.username, Some(d.user.id)))
              && d.user.id != ""
  {
    if !RequiresToken(verb, path) then Skip
    else
      match GetTokenFrom(authorization)
      case None => Throw(Error("JsonWebTokenError", "jwt must be provided"))
      case Some(token) =>
        match verify(token)
        case Failure(message) => Throw(Error("JsonWebTokenError", message))
        case Ok(decoded) =>
          if decoded.id.None? || decoded.id.value == "" then Reject(JsonError(401, "token invalid"))
          else Attach(Identity(decoded.username, decoded.id.value))
  }

  /** How control leaves a middleware. */
  datatype Flow = Next | Halted | Raised(error: Error)

  /** `tokenAuthentication`: acts on the request and response as `Authenticate` decides. */
  method TokenAuthentication(request: Request, response: Response, verify: Verifier) returns (flow: Flow)
    modifies request, response
    ensures var d := Authenticate(request.verb, request.path, request.authorization, verify);
            && (d.Attach? ==> request.user == Some(d.user))
            && (!d.Attach? ==> request.user == old(request.user))
            && (d.Reject? ==> response.sent == Some(d.reply))
            && (!d.Reject? ==> response.sent == old(response.sent))
            && flow == match d
                       case Skip => Next
                       case Attach(_) => Next
                       case Reject(_) => Halted
                       case Throw(e) => Raised(e)
  {
    if request.verb != "GET" && request.path != "/api/login/" {
      var token := GetTokenFrom(request.authorization);
      if token.None? {
        return Raised(Error("JsonWebTokenError", "jwt must be provided"));
      }
      var decoded := verify(token.value);
      if decoded.Failure? {
        return Raised(Error("JsonWebTokenError", decoded.message));
      }
      if decoded.value.id.None? || decoded.value.id.value == "" {
        response.sent := Some(JsonError(401, "token invalid"));
        return Halted;
      }
      request.user := Some(Identity(decoded.value.username, decoded.value.id.value));
    }
    flow := Next;
  }

  /** A request that must carry a token but has no usable bearer header
      ends, through `errorHandler`, as 400 "token missing or invalid". */
  lemma MissingBearerEndsAs400(verb: string, path: string, authorization: Option<string>, verify: Verifier)
    requires RequiresToken(verb, path)
    requires authorization.None? || !StartsWith(authorization.value, BearerPrefix)
    ensures Authenticate(verb, path, authorization, verify).Throw?
    ensures ErrorResponse(Authenticate(verb, path, authorization, verify).error)
              == Some(JsonError(400, "token missing or invalid"))
  {
  }

  /** A well-formed bearer token whose payload has a non-empty `id` attaches
      exactly that identity. */
  lemma ValidTokenAttaches(verb: string, path: string, token: string, verify: Verifier, username: Option<string>, id: string)
    requires RequiresToken(verb, path)
    requires id != ""
    requires verify(token) == Ok(Decoded(username, Some(id)))
    ensures Authenticate(verb, path, Some(BearerPrefix + token), verify) == Attach(Identity(username, id))
  {
  }
  /** A bearer token that verifies to a payload without an `id` claim, or
      with an empty one, is answered 401 "token invalid". */
  lemma NoIdRejects(verb: string, path: string, token: string, verify: Verifier, username: Option<string>, id: Option<string>)
    requires RequiresToken(verb, path)
    requires id.None? || id.value == ""
    requires verify(token) == Ok(Decoded(username, id))
    ensures Authenticate(verb, path, Some(BearerPrefix + token), verify) == Reject(JsonError(401, "token invalid"))
  {
  }

}
