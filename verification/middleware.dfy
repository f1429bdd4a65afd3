/**
 * The request filter that runs in front of every route: a stateless decision
 * over the request's method and path. A scanner path is refused with 403, a
 * POST to the root path is refused with 400, and every other request passes
 * through to routing. Both refusals carry no body.
 */
module Middleware {
  import opened Base
  import opened JsString
  import opened ScannerPatterns

  datatype Request = Request(verb: string, path: string)

  datatype FilterOutcome =
    | Respond(status: nat, body: Option<string>)   // answered by the filter itself
    | Next                                         // handed on to routing

  const Forbidden := Respond(403, None)
  const BadRequest := Respond(400, None)

  /**
   * The filter's decision. The scanner check comes first, so a scanner path
   * is refused with 403 whatever the method; only then is a POST to exactly
   * "/" refused with 400.
   */
  function Filter(req: Request): (r: FilterOutcome)
    ensures r == Forbidden || r == BadRequest || r == Next
    ensures r == Forbidden <==> IsScannerPath(req.path)
    ensures r == BadRequest <==> !IsScannerPath(req.path) && req.verb == "POST" && req.path == "/"
  {
    if IsScannerPath(req.path) then Forbidden
    else if req.verb == "POST" && req.path == "/" then BadRequest
    else Next
  }

  /** A request whose path starts with "/.env" or ends with ".env", in any case, is refused with 403 for every method. */
  lemma EnvPathsForbidden(verb: string, path: string)
    requires (|path| >= 5 && Lower(path)[..5] == "/.env") || (|path| >= 4 && Lower(path)[|path| - 4..] == ".env")
    ensures Filter(Request(verb, path)) == Forbidden
  {
    EnvPathIsScannerPath(path);
  }

  /** A POST to a scanner path is refused with 403, never 400: the scanner check takes precedence. */
  lemma PostToEnvIsForbidden()
    ensures Filter(Request("POST", "/.env")) == Forbidden
    ensures Filter(Request("GET", "/.env")) == Forbidden
  {
    assert Lower("/.env")[..5] == "/.env";
    EnvPathIsScannerPath("/.env");
  }

  /** A POST to exactly "/" is refused with 400, since "/" matches none of the scanner patterns. */
  lemma RootPostIsBadRequest()
    ensures Filter(Request("POST", "/")) == BadRequest
  {
    AppPathsAreNotScannerPaths();
  }

  /** Any other method on "/", and any method on the application's own paths, passes through. */
  lemma OrdinaryRequestsPass(verb: string)
    ensures verb != "POST" ==> Filter(Request(verb, "/")) == Next
    ensures Filter(Request(verb, "/api/menus")) == Next
    ensures Filter(Request(verb, "/menu/new")) == Next
  {
    AppPathsAreNotScannerPaths();
  }

  /** The root path "/" has no other spelling under case folding. */
  lemma LowerRoot(q: string)
    requires Lower(q) == "/"
    ensures q == "/"
  {
    assert |q| == 1 && LowerChar(q[0]) == Lower(q)[0];
  }

  /** The decision ignores the case of ASCII letters in the path. */
  lemma FilterIgnoresPathCase(verb: string, p: string, q: string)
    requires Lower(p) == Lower(q)
    ensures Filter(Request(verb, p)) == Filter(Request(verb, q))
  {
    IsScannerPathIgnoresCase(p, q);
    if p == "/" {
      assert Lower(p) == "/";
      LowerRoot(q);
    } else if q == "/" {
      assert Lower(q) == "/";
      LowerRoot(p);
    }
  }

  /** Filtering the lower-cased path decides exactly as filtering the path itself. */
  lemma FilterSeesLowerCasedPath(verb: string, p: string)
    ensures Filter(Request(verb, Lower(p))) == Filter(Request(verb, p))
  {
    LowerIdempotent(p);
    FilterIgnoresPathCase(verb, Lower(p), p);
  }
}
