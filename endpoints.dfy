/** What each ErlcClient operation sends and where
    (Erlc.Net/ErlcClient.cs): the base address built from the API version,
    the `server-key` header, and the verb, relative path and body of each
    request. */
module Endpoints {

  import opened Wrappers
  import opened Entities
  import Decimal
  import Uris

  /** Scheme and authority of PRC's API. */
  const Origin: string := "https://api.policeroleplay.community"

  /** The header that carries the access token. */
  const KeyHeader: string := "server-key"

  /** The version selected when the caller gives none. */
  const DefaultVersion: Byte := 1

  /** One value per client operation; `Command` carries the command text. */
  datatype Endpoint =
    | Command(command: string)
    | Server
    | Players
    | JoinLogs
    | Queue
    | KillLogs
    | CommandLogs
    | ModCalls
    | Bans
    | Vehicles

  datatype Verb = Get | Post

  /** A request before the transport sees it; `body` is the value of the
      `command` field of the JSON object `{ command }`. */
  datatype Request = Request(verb: Verb, path: string, body: Option<string>)

  /** Every path lies under "server", has no '/' at either end and no '.',
      so resolving it involves no dot segments. */
  function PathOf(e: Endpoint): (path: string)
    ensures |path| >= 6 && path[..6] == "server"
    ensures path[0] != '/' && path[|path| - 1] != '/'
    ensures '.' !in path
  {
    match e
    case Command(_) => "server/command"
    case Server => "server"
    case Players => "server/players"
    case JoinLogs => "server/joinlogs"
    case Queue => "server/queue"
    case KillLogs => "server/killlogs"
    case CommandLogs => "server/commandlogs"
    case ModCalls => "server/modcalls"
    case Bans => "server/bans"
    case Vehicles => "server/vehicles"
  }

  /** The request an operation builds: only RunCommand posts, and only it
      has a body, which is the command text; the path is a relative path
      under "server" without '/' at either end. */
  function RequestFor(e: Endpoint): (r: Request)
    ensures r.verb == Post <==> e.Command?
    ensures r.body.Some? <==> e.Command?
    ensures e.Command? ==> r.body == Some(e.command)
    ensures r.path == PathOf(e)
  {
    match e
    case Command(c) => Request(Post, PathOf(e), Some(c))
    case _ => Request(Get, PathOf(e), None)
  }

  /** Distinct operations go to distinct paths (all commands share one). */
  lemma PathsDistinct(e1: Endpoint, e2: Endpoint)
    ensures PathOf(e1) == PathOf(e2) <==> (e1 == e2 || (e1.Command? && e2.Command?))
  {
  }

  /** `https://api.policeroleplay.community/v{version}`, with no trailing '/'. */
  function BaseAddress(version: Byte): (url: string)
    ensures |url| > |Origin| && url[..|Origin|] == Origin
    ensures url[|url| - 1] != '/'
  {
    Origin + "/v" + Decimal.Digits(version as nat)
  }

  /** The path of the base address: "/v" and the version's digits. */
  function BasePath(version: Byte): string
  {
    "/v" + Decimal.Digits(version as nat)
  }

  /** The base path "/v{version}" is one segment, so merging a relative
      path into it replaces that segment. */
  lemma MergeReplacesVersion(version: Byte, path: string)
    ensures Uris.Merge(BasePath(version), path) == "/" + path
  {
    var digits := Decimal.Digits(version as nat);
    assert '/' !in digits by {
      forall i | 0 <= i < |digits| ensures digits[i] != '/' {
      }
    }
    assert BasePath(version) == "/" + ("v" + digits);
    assert '/' !in "v" + digits;
    Uris.DirectoryOfExtension("/", "v" + digits);
  }

  /** The URL the transport is given as the code is written: the relative
      path resolved against the base address. The version never reaches
      it: every request goes to the origin, '/' and the operation's path. */
  function RequestUrl(version: Byte, e: Endpoint): (url: string)
    ensures url == Origin + "/" + PathOf(e)
  {
    MergeReplacesVersion(version, PathOf(e));
    Origin + Uris.Merge(BasePath(version), RequestFor(e).path)
  }

  /** Any two versions give the same URL for every operation. */
  lemma RequestUrlIgnoresVersion(v1: Byte, v2: Byte, e: Endpoint)
    ensures RequestUrl(v1, e) == RequestUrl(v2, e)
  {
  }

  /** The URL evidently intended: the base address treated as a directory
      (a '/' after it), so that the relative path is appended to it and the
      version segment is kept. */
  function IntendedRequestUrl(version: Byte, e: Endpoint): (url: string)
    ensures url == BaseAddress(version) + "/" + PathOf(e)
  {
    var base, path := BasePath(version) + "/", RequestFor(e).path;
    assert Uris.Directory(base) == base;
    assert Origin + (BasePath(version) + "/" + path) == Origin + BasePath(version) + "/" + path;
    Origin + Uris.Merge(base, path)
  }

  /** Intended URLs tell versions apart. */
  lemma IntendedRequestUrlInjective(v1: Byte, v2: Byte, e: Endpoint)
    ensures IntendedRequestUrl(v1, e) == IntendedRequestUrl(v2, e) ==> v1 == v2
  {
    var d1, d2 := Decimal.Digits(v1 as nat), Decimal.Digits(v2 as nat);
    var prefix, path := Origin + "/v", PathOf(e);
    var tail := "/" + path;
    assert prefix + d1 + "/" + path == prefix + d1 + tail;
    assert prefix + d2 + "/" + path == prefix + d2 + tail;
    if prefix + d1 + tail == prefix + d2 + tail {
      CancelAround(prefix, d1, d2, tail);
      Decimal.DigitsInjective(v1 as nat, v2 as nat);
    }
  }

  lemma CancelAround(a: string, x: string, y: string, t: string)
    requires a + x + t == a + y + t
    ensures x == y
  {
    assert |x| == |y|;
    assert x == (a + x + t)[|a|..|a| + |x|];
    assert y == (a + y + t)[|a|..|a| + |y|];
  }
}
