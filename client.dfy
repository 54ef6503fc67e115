/** ErlcClient (Erlc.Net/ErlcClient.cs): one request per operation, then a
    fixed decision chain from the HTTP status and the outcome of parsing
    the body to a response. The transport and the JSON reader are not part
    of this model: each operation receives the status the server answered
    with, the parsed body (`None` for a null parse) and `responseText`, the
    text that `{response}` interpolates into a parse-failure message. */
module Client {

  import opened Wrappers
  import opened Entities
  import opened Endpoints
  import opened Responses

  /** "Unable to parse <what> response: <response>". */
  function ParseError(what: string, responseText: string): (message: string)
    ensures StartsWith(message, UnableToParse)
  {
    UnableToParse + what + " response: " + responseText
  }

  /** The chain each fetch operation runs after sending its request: 403,
      then any other status outside 200-299, then a null parse, then
      success. Its response conveys exactly the outcome of the shared
      request algorithm and echoes the status. */
  function Classify<T>(status: int, parsed: Option<T>, what: string, responseText: string): (r: Response<T>)
    ensures r.statusCode == status
    ensures Reports(r, Expected(status, parsed))
    ensures r.success <==> IsSuccessStatusCode(status) && parsed.Some?
    ensures Expected(status, parsed).ParseFailure? ==> r.errorMessage == Some(ParseError(what, responseText))
  {
    if status == Forbidden then
      Response(None, false, status, Some(InvalidAccessToken))
    else if !IsSuccessStatusCode(status) then
      Response(None, false, status, None)
    else if parsed.None? then
      Response(None, false, status, Some(ParseError(what, responseText)))
    else
      Response(parsed, true, status, None)
  }

  /** RunCommand: success is the status being in 200-299 alone; the
      message comes from a fixed table of four statuses, none of them a
      success, so a successful command never carries a message. */
  function RunCommand(status: int): (r: CommandResponse)
    ensures r.statusCode == status
    ensures r.success <==> IsSuccessStatusCode(status)
    ensures status == BadRequest ==> r.errorMessage == Some("Invalid command")
    ensures status == Forbidden ==> r.errorMessage == Some(InvalidAccessToken)
    ensures status == UnprocessableEntity ==> r.errorMessage == Some("Server contains no players")
    ensures status == InternalServerError ==> r.errorMessage == Some("Problem communicating with Roblox")
    ensures status !in {BadRequest, Forbidden, UnprocessableEntity, InternalServerError} ==> r.errorMessage.None?
    ensures r.success ==> r.errorMessage.None?
  {
    var errorMessage :=
      if status == BadRequest then Some("Invalid command")
      else if status == Forbidden then Some(InvalidAccessToken)
      else if status == UnprocessableEntity then Some("Server contains no players")
      else if status == InternalServerError then Some("Problem communicating with Roblox")
      else None;
    CommandResponse(IsSuccessStatusCode(status), status, errorMessage)
  }

  function GetPlayers(status: int, parsed: Option<seq<ErlcPlayer>>, responseText: string): (r: Response<seq<ErlcPlayer>>)
    ensures r.statusCode == status
    ensures Reports(r, Expected(status, parsed))
    ensures Expected(status, parsed).ParseFailure? ==> r.errorMessage == Some(ParseError("players", responseText))
  {
    Classify(status, parsed, "players", responseText)
  }

  function GetJoinLogs(status: int, parsed: Option<seq<JoinLog>>, responseText: string): (r: Response<seq<JoinLog>>)
    ensures r.statusCode == status
    ensures Reports(r, Expected(status, parsed))
    ensures Expected(status, parsed).ParseFailure? ==> r.errorMessage == Some(ParseError("join logs", responseText))
  {
    Classify(status, parsed, "join logs", responseText)
  }

  /** GetPlayersInQueue as written: the failure responses built for a
      status outside 200-299 and for a null parse are never returned, so
      every status but 403 yields success with whatever was parsed. */
  function GetPlayersInQueue(status: int, parsed: Option<seq<ULong>>): (r: Response<seq<ULong>>)
    ensures r.statusCode == status
    ensures status == Forbidden ==> Reports(r, AuthenticationFailure)
    ensures status != Forbidden ==> r.success && r.result == parsed && r.errorMessage.None?
  {
    if status == Forbidden then
      Response(None, false, status, Some(InvalidAccessToken))
    else
      Response(parsed, true, status, None)
  }

  /** GetPlayersInQueue with the two missing returns restored. */
  function GetPlayersInQueueIntended(status: int, parsed: Option<seq<ULong>>, responseText: string): (r: Response<seq<ULong>>)
    ensures r.statusCode == status
    ensures Reports(r, Expected(status, parsed))
    ensures Expected(status, parsed).ParseFailure? ==> r.errorMessage == Some(ParseError("queue", responseText))
  {
    Classify(status, parsed, "queue", responseText)
  }

  /** GetKillLogs as written: the failure response built for a null parse
      is never returned, so a 2xx status yields success even without a
      result. */
  function GetKillLogs(status: int, parsed: Option<seq<KillLog>>): (r: Response<seq<KillLog>>)
    ensures r.statusCode == status
    ensures !IsSuccessStatusCode(status) ==> Reports(r, Expected(status, parsed))
    ensures IsSuccessStatusCode(status) ==> r.success && r.result == parsed && r.errorMessage.None?
  {
    if status == Forbidden then
      Response(None, false, status, Some(InvalidAccessToken))
    else if !IsSuccessStatusCode(status) then
      Response(None, false, status, None)
    else
      Response(parsed, true, status, None)
  }

  /** GetKillLogs with the missing return restored. */
  function GetKillLogsIntended(status: int, parsed: Option<seq<KillLog>>, responseText: string): (r: Response<seq<KillLog>>)
    ensures r.statusCode == status
    ensures Reports(r, Expected(status, parsed))
    ensures Expected(status, parsed).ParseFailure? ==> r.errorMessage == Some(ParseError("kill logs", responseText))
  {
    Classify(status, parsed, "kill logs", responseText)
  }

  function GetCommandLogs(status: int, parsed: Option<seq<CommandLog>>, responseText: string): (r: Response<seq<CommandLog>>)
    ensures r.statusCode == status
    ensures Reports(r, Expected(status, parsed))
    ensures Expected(status, parsed).ParseFailure? ==> r.errorMessage == Some(ParseError("command logs", responseText))
  {
    Classify(status, parsed, "command logs", responseText)
  }

  function GetModCallLogs(status: int, parsed: Option<seq<ModeratorCallLog>>, responseText: string): (r: Response<seq<ModeratorCallLog>>)
    ensures r.statusCode == status
    ensures Reports(r, Expected(status, parsed))
    ensures Expected(status, parsed).ParseFailure? ==> r.errorMessage == Some(ParseError("mod call logs", responseText))
  {
    Classify(status, parsed, "mod call logs", responseText)
  }

  /** The ban list; its parse-failure message speaks of command logs. */
  function GetBans(status: int, parsed: Option<Bans>, responseText: string): (r: Response<Bans>)
    ensures r.statusCode == status
    ensures Reports(r, Expected(status, parsed))
    ensures Expected(status, parsed).ParseFailure? ==> r.errorMessage == Some(ParseError("command logs", responseText))
  {
    Classify(status, parsed, "command logs", responseText)
  }

  /** The spawned vehicles; its parse-failure message speaks of command logs. */
  function GetSpawnedVehicles(status: int, parsed: Option<seq<SpawnedVehicle>>, responseText: string): (r: Response<seq<SpawnedVehicle>>)
    ensures r.statusCode == status
    ensures Reports(r, Expected(status, parsed))
    ensures Expected(status, parsed).ParseFailure? ==> r.errorMessage == Some(ParseError("command logs", responseText))
  {
    Classify(status, parsed, "command logs", responseText)
  }

  /** The queue as written agrees with the shared algorithm exactly on a
      403 and on a 2xx status with a parsed body. */
  lemma QueueConformsExactly(status: int, parsed: Option<seq<ULong>>)
    ensures Reports(GetPlayersInQueue(status, parsed), Expected(status, parsed))
      <==> status == Forbidden || (IsSuccessStatusCode(status) && parsed.Some?)
  {
  }

  /** A server error with no parsable body is reported as a success. */
  lemma QueueServerErrorIsSuccess()
    ensures Expected<seq<ULong>>(InternalServerError, None) == RequestFailure(InternalServerError)
    ensures GetPlayersInQueue(InternalServerError, None).success
  {
  }

  /** Kill logs as written agree with the shared algorithm except on a 2xx
      status whose body does not parse. */
  lemma KillLogsConformExactly(status: int, parsed: Option<seq<KillLog>>)
    ensures Reports(GetKillLogs(status, parsed), Expected(status, parsed))
      <==> !(IsSuccessStatusCode(status) && parsed.None?)
  {
  }

  /** A 200 whose body does not parse is reported as a success without a result. */
  lemma KillLogsNullParseIsSuccess()
    ensures Expected<seq<KillLog>>(200, None) == ParseFailure
    ensures GetKillLogs(200, None).success && GetKillLogs(200, None).result.None?
  {
  }

  /** Where the kill logs as written do conform, they return what the
      corrected operation returns. */
  lemma KillLogsAgreeWhereConforming(status: int, parsed: Option<seq<KillLog>>, responseText: string)
    requires !(IsSuccessStatusCode(status) && parsed.None?)
    ensures GetKillLogs(status, parsed) == GetKillLogsIntended(status, parsed, responseText)
  {
  }

  /** The server, as the JSON reader builds it; only `client` is ever
      changed by the client library. */
  class Server {
    var client: ErlcClient?
    const name: string
    const ownerId: ULong
    const coOwnerIds: seq<ULong>
    const currentPlayers: Byte
    const maxPlayers: Byte
    const joinKey: string
    const accVerifiedReq: string
    const teamBalance: bool

    /** A freshly read server has no client yet (`Client` is not in the JSON). */
    constructor (name: string, ownerId: ULong, coOwnerIds: seq<ULong>, currentPlayers: Byte, maxPlayers: Byte,
                 joinKey: string, accVerifiedReq: string, teamBalance: bool)
      ensures client == null
      ensures this.name == name && this.ownerId == ownerId && this.coOwnerIds == coOwnerIds
      ensures this.currentPlayers == currentPlayers && this.maxPlayers == maxPlayers
      ensures this.joinKey == joinKey && this.accVerifiedReq == accVerifiedReq && this.teamBalance == teamBalance
    {
      this.name, this.ownerId, this.coOwnerIds := name, ownerId, coOwnerIds;
      this.currentPlayers, this.maxPlayers := currentPlayers, maxPlayers;
      this.joinKey, this.accVerifiedReq, this.teamBalance := joinKey, accVerifiedReq, teamBalance;
      client := null;
    }
  }

  /** The client's configuration: the access token and the API version. */
  class ErlcClient {
    const accessToken: string
    const version: Byte

    /** Construction only prepares the configuration; nothing is sent.
        Without a version the client uses version 1. */
    constructor (accessToken: string, version: Byte := DefaultVersion)
      ensures this.accessToken == accessToken && this.version == version
    {
      this.accessToken, this.version := accessToken, version;
    }

    /** The URL an operation's request is sent to, as the code is written:
        whatever the version, it is the origin, '/', and the path. */
    function Url(e: Endpoint): (url: string)
      ensures url == Origin + "/" + PathOf(e)
    {
      RequestUrl(version, e)
    }

    /** GetServer: the shared chain, and on success the parsed server is
        bound to this client before it is returned. A server that is not
        returned is left untouched. */
    method GetServer(status: int, parsed: Option<Server>, responseText: string) returns (r: Response<Server>)
      modifies if parsed.Some? then {parsed.value} else {}
      ensures r == Classify(status, parsed, "server", responseText)
      ensures r.success ==> r.result.value.client == this
      ensures parsed.Some? && !r.success ==> parsed.value.client == old(parsed.value.client)
    {
      if status == Forbidden {
        return Response(None, false, status, Some(InvalidAccessToken));
      }
      if !IsSuccessStatusCode(status) {
        return Response(None, false, status, None);
      }
      if parsed.None? {
        return Response(None, false, status, Some(ParseError("server", responseText)));
      }
      var server := parsed.value;
      server.client := this;
      r := Response(parsed, true, status, None);
    }
  }
}
