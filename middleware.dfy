/**
 * The request middleware of middleware.ts: a request whose path is under
 * `/api/` is re-targeted to the fixed backend with that prefix dropped;
 * every other request goes on unchanged.
 */
module Middleware {
  import opened Wrappers

  /** The parts of a URL the middleware can see or change. */
  datatype Url = Url(
    protocol: string,
    username: string,
    password: string,
    hostname: string,
    port: string,
    pathname: string,
    search: string,
    hash: string)

  /** NextResponse.rewrite(url) or NextResponse.next(). */
  datatype Response = Rewrite(target: Url) | Next

  const ApiPrefix := "/api/"
  const BackendProtocol := "http:"
  const BackendHost := "51.75.123.172"
  const BackendPort := "5005"

  /** `pat` occurs in `s` at position `i`. */
  predicate OccursAt(s: string, pat: string, i: nat) {
    i + |pat| <= |s| && s[i..i + |pat|] == pat
  }

  /** An occurrence past the first character of `s` is one in `s[1..]`. */
  lemma OccursInTail(s: string, pat: string, j: nat)
    requires 1 <= j && |s| > 0
    ensures OccursAt(s, pat, j) <==> OccursAt(s[1..], pat, j - 1)
  {
    if j + |pat| <= |s| {
      assert s[j..j + |pat|] == s[1..][j - 1..j - 1 + |pat|];
    }
  }

  /** Position of the first occurrence of `pat` in `s`, as String.prototype.indexOf. */
  function FindFirst(s: string, pat: string): (r: Option<nat>)
    ensures r.Some? ==> OccursAt(s, pat, r.value)
    ensures r.Some? ==> forall j :: 0 <= j < r.value ==> !OccursAt(s, pat, j)
    ensures r.None? ==> forall j :: 0 <= j <= |s| ==> !OccursAt(s, pat, j)
    decreases |s|
  {
    if pat <= s then Some(0)
    else if |s| == 0 then None
    else
      var rest := FindFirst(s[1..], pat);
      assert forall j :: 1 <= j <= |s| ==> (OccursAt(s, pat, j) <==> OccursAt(s[1..], pat, j - 1)) by {
        forall j | 1 <= j <= |s| {
          OccursInTail(s, pat, j);
        }
      }
      match rest
      case None => None
      case Some(i) => Some(i + 1)
  }

  /** `s.replace(pat, rep)` with a string pattern: only the first occurrence
      is replaced, and a string without one is returned as it is. The
      replacement is inserted literally; the `$&`, `$$`, `` $` `` and `$'`
      patterns JavaScript expands in a replacement string are not modelled,
      and the one replacement used here, `/`, contains none of them. */
  function ReplaceFirst(s: string, pat: string, rep: string): (r: string)
    ensures FindFirst(s, pat).None? ==> r == s
    ensures FindFirst(s, pat).Some? ==> |r| == |s| - |pat| + |rep|
    ensures FindFirst(s, pat).Some? ==>
      var i := FindFirst(s, pat).value;
      && r[..i] == s[..i]
      && r[i..i + |rep|] == rep
      && r[i + |rep|..] == s[i + |pat|..]
  {
    match FindFirst(s, pat)
    case None => s
    case Some(i) => s[..i] + rep + s[i + |pat|..]
  }

  /** When the path starts with the API prefix, that prefix is the first
      occurrence, so the rewrite drops exactly those five characters' worth:
      the new path is `/` and the rest. */
  lemma {:induction false} PrefixIsFirstOccurrence(path: string)
    requires ApiPrefix <= path
    ensures ReplaceFirst(path, ApiPrefix, "/") == "/" + path[5..]
  {
    assert OccursAt(path, ApiPrefix, 0);
    assert FindFirst(path, ApiPrefix) == Some(0);
  }

  /** The middleware: rewrite API requests to the backend, pass the rest through. */
  function Handle(request: Url): (r: Response)
    ensures r.Next? <==> !(ApiPrefix <= request.pathname)
    ensures r.Rewrite? ==>
      && r.target.protocol == "http:"
      && r.target.hostname == "51.75.123.172"
      && r.target.port == "5005"
    ensures r.Rewrite? ==>
      && r.target.pathname == "/" + request.pathname[5..]
      && |r.target.pathname| == |request.pathname| - 4
      && "/" <= r.target.pathname
    ensures r.Rewrite? ==>
      && r.target.username == request.username
      && r.target.password == request.password
      && r.target.search == request.search
      && r.target.hash == request.hash
  {
    if ApiPrefix <= request.pathname then
      PrefixIsFirstOccurrence(request.pathname);
      Rewrite(request.(
        protocol := BackendProtocol,
        hostname := BackendHost,
        port := BackendPort,
        pathname := ReplaceFirst(request.pathname, ApiPrefix, "/")))
    else
      Next
  }

  /** The rewrite loses nothing of the path: putting `/api` back in front of
      the rewritten path gives the original path. */
  lemma RewriteIsInvertible(request: Url)
    requires Handle(request).Rewrite?
    ensures "/api" + Handle(request).target.pathname == request.pathname
  {
    var p := request.pathname;
    assert p == "/api/" + p[5..];
  }

  /** Only the leading `/api/` is replaced; a later one stays. */
  lemma OnlyFirstOccurrenceReplaced()
    ensures ReplaceFirst("/api/x/api/y", ApiPrefix, "/") == "/x/api/y"
  {
    PrefixIsFirstOccurrence("/api/x/api/y");
  }
}
