# Erlc.Net, modelled in Dafny

Erlc.Net is a C# client for PRC's ER:LC server API. A client holds an access
token and an API version. Each operation sends one HTTP request: `RunCommand`
posts a command, and nine `Get…` operations fetch the server, its players,
the queue, four kinds of logs, the bans and the spawned vehicles. The client
then turns the HTTP status and the parsed JSON body into an `ErlcResponse`.
Players are identified by one `"Username:UserId"` string. `PlayerName`
splits that string on `':'` each time `Name` or `Id` is read.

This project models three parts of that library:

- the `PlayerName` accessors and conversions;
- each client operation's request and its mapping from status and parse
  outcome to a response;
- `InvalidTokenException.ThrowIfInvalid`.

The network and the JSON reader are not modelled. Each operation takes
their results as inputs:

- the status code, an `int`;
- the parsed body, an `Option`, where `None` is a null parse;
- for the parse-failure message, the text the source interpolates as
  `{response}`.

Modules, one per file:

- `Wrappers` (wrappers.dfy): `Option`.
- `PlayerNames` (player_name.dfy): `String.Split(':')` as a function. `Join` is its
  inverse, and `IndexOf`/`Count` are independent references. On top of them
  come `Name`, `Id` and the two conversions.
- `Entities` (entities.dfy): the record types the operations return.
- `Decimal` (decimal.dfy): how `$"{version}"` renders a number, and its inverse.
- `Uris` (uris.dfy): "Merge Paths" from section 5.2.3 of RFC 3986. `HttpClient`
  applies it when a relative request path meets its `BaseAddress`.
- `Endpoints` (endpoints.dfy): the base address, the verb, path and body of
  each operation, and the URL that results.
- `Responses` (responses.dfy): `ErlcResponse` and `ErlcResponse<T>`. It also
  holds two references written apart from the client code:
  - `Expected`, the error taxonomy the client is meant to follow: an
    invalid token (403 first), a failed request, a parse failure, or the
    value;
  - `Reports`, which says how a response conveys each outcome.
- `Client` (client.dfy): `Classify` is the decision chain that the fetch
  operations repeat. It is followed by one function per operation and by
  the classes `ErlcClient` and `Server`. `GetServer` is a method on
  `ErlcClient` because it writes `server.Client = this`. The other
  operations read no client state, so they are pure functions of the
  status and the parse outcome.
- `Exceptions` (invalid_token_exception.dfy): `InvalidTokenException` and
  `ThrowIfInvalid`.

Points about the code that the model keeps:

- `Id` returns only the second segment, so `"a:b:c"` gives `"b"`.
- `GetPlayersInQueue` and `GetKillLogs` are modelled as written. Corrected
  versions stand beside them (see Findings).
- `GetBans` and `GetSpawnedVehicles` say "command logs" in their
  parse-failure messages. The model keeps that wording.

## Model

| member | source | states |
|---|---|---|
| `PlayerNames.Split` | Erlc.Net/Entities/PlayerName.cs:18-19 | `Split(':')` always gives at least one segment, and no segment contains `':'` |
| `PlayerNames.JoinSplit` | Erlc.Net/Entities/PlayerName.cs:18-19 | joining the segments with `':'` gives back the original string, so nothing is lost by splitting |
| `PlayerNames.SplitJoin` | Erlc.Net/Entities/PlayerName.cs:18-19 | splitting the join of segments that contain no `':'` gives back exactly those segments, empty ones included |
| `PlayerNames.SplitAtFirst` | Erlc.Net/Entities/PlayerName.cs:18-19 | the first segment is the text before the first `':'` (or the whole string when there is none), and the rest is the split of what follows that `':'` |
| `PlayerNames.SplitCount` | Erlc.Net/Entities/PlayerName.cs:18-19 | there is exactly one more segment than there are `':'` characters |
| `PlayerNames.Name` | Erlc.Net/Entities/PlayerName.cs:18 | `Name` is the text before the first `':'`, or the whole string when there is none; it never fails and never contains `':'` |
| `PlayerNames.Id` | Erlc.Net/Entities/PlayerName.cs:19 | `Id` fails (index out of range) exactly when the string has no `':'`, the empty string included; otherwise it is the text between the first and the second `':'` (or the end) and contains no `':'` |
| `PlayerNames.FromText` | Erlc.Net/Entities/PlayerName.cs:22 | a null string converts to null; any other string converts to a PlayerName that converts back to that same string |
| `PlayerNames.TextRoundTrip` | Erlc.Net/Entities/PlayerName.cs:21-22 | converting a PlayerName to a string returns `Player` unchanged, and converting that back gives the same PlayerName |
| `PlayerNames.NameColonId` | Erlc.Net/Entities/PlayerName.cs:8-19 | with exactly one `':'`, `Id` succeeds and `Name + ":" + Id` is the original string |
| `PlayerNames.NameIdOfJoined` | Erlc.Net/Entities/PlayerName.cs:8-19 | for a name and an id that contain no `':'`, `"name:id"` gives that name and that id back |
| `PlayerNames.WorkedExample` | Erlc.Net/Entities/PlayerName.cs:9-19 | `"musicaintreal:7081359404"` gives Name `"musicaintreal"` and Id `"7081359404"` |
| `PlayerNames.SeveralSeparators` | Erlc.Net/Entities/PlayerName.cs:18-19 | `"a:b:c"` gives Name `"a"` and Id `"b"`: the Id is not the whole remainder |
| `PlayerNames.EmptyPlayer` | Erlc.Net/Entities/PlayerName.cs:18-19 | the empty string gives an empty Name, and reading its Id fails |
| `Decimal.Digits` | Erlc.Net/ErlcClient.cs:16 | the version is rendered as a non-empty string of decimal digits with no leading zero |
| `Decimal.ValueOfDigits` | Erlc.Net/ErlcClient.cs:16 | reading the rendered digits back gives the version number |
| `Decimal.DigitsInjective` | Erlc.Net/ErlcClient.cs:16 | two different versions are never rendered the same |
| `Uris.Directory` | Erlc.Net/ErlcClient.cs:16 | the part of the base path that a relative reference keeps is a prefix that ends in `/` (or is empty), and no `/` follows it |
| `Uris.Merge` | Erlc.Net/ErlcClient.cs:16 | resolving a relative path against a base path ends in that path. Before it comes `/` for an empty base path; otherwise it is a prefix of the base path that ends in `/` (or is empty), with no `/` in the part of the base path that was dropped |
| `Uris.DirectoryOfExtension` | Erlc.Net/ErlcClient.cs:16 | text without a `/` added to the end of a base path does not change the directory the path resolves against |
| `Endpoints.PathOf` | Erlc.Net/ErlcClient.cs:26-452 | the path each operation names (`server`, `server/players`, …, `server/command`) starts with `server`, has no `/` at either end and contains no `.` |
| `Endpoints.RequestFor` | Erlc.Net/ErlcClient.cs:26-28 | only RunCommand posts, and only it sends a body, which is the command text; every other operation is a GET with no body; the path is the operation's own |
| `Endpoints.PathsDistinct` | Erlc.Net/ErlcClient.cs:56-452 | two operations share a path exactly when they are the same operation, or both are RunCommand |
| `Endpoints.BaseAddress` | Erlc.Net/ErlcClient.cs:16 | the base address starts with `https://api.policeroleplay.community` and does not end with `/` |
| `Endpoints.MergeReplacesVersion` | Erlc.Net/ErlcClient.cs:16 | merging a relative path into the base path `/v{version}` gives `/` and the path: the version segment is replaced |
| `Endpoints.RequestUrl` | Erlc.Net/ErlcClient.cs:14-16 | as written, every request goes to `https://api.policeroleplay.community/` followed by the operation's path, whatever the version |
| `Endpoints.RequestUrlIgnoresVersion` | Erlc.Net/ErlcClient.cs:16 | as written, any two versions give the same URL for every operation |
| `Endpoints.IntendedRequestUrl` | Erlc.Net/ErlcClient.cs:16 | with a trailing `/` on the base address, the URL is the base address, `/` and the path, so the version is kept |
| `Endpoints.IntendedRequestUrlInjective` | Erlc.Net/ErlcClient.cs:16 | with that `/`, different versions give different URLs |
| `Responses.IsSuccessStatusCode` | Erlc.Net/ErlcClient.cs:44 | a success is a status in 200–299: 200 is one, and none of 400, 403, 422 and 500 is |
| `Responses.ReportsUnique` | Erlc.Net/ErlcResponse.cs:5-11 | a response never conveys two different outcomes |
| `Client.ParseError` | Erlc.Net/ErlcClient.cs:89 | every parse-failure message starts with "Unable to parse " |
| `Client.Classify` | Erlc.Net/ErlcClient.cs:59-102 | the response echoes the status and conveys the expected outcome: 403 first as "Invalid access token"; any other status outside 200–299 as a failure with no message; a null parse as "Unable to parse …"; otherwise the parsed value. `Success` holds exactly for a 2xx status with a parsed body, and a failure never has a `Result` |
| `Client.RunCommand` | Erlc.Net/ErlcClient.cs:33-47 | `Success` holds exactly when the status is 2xx. The message is "Invalid command" for 400, "Invalid access token" for 403, "Server contains no players" for 422, "Problem communicating with Roblox" for 500 and null for any other status, so a success never has a message. The status is echoed |
| `Client.GetPlayers` | Erlc.Net/ErlcClient.cs:111-152 | the shared algorithm for the players list; its parse message names "players" |
| `Client.GetJoinLogs` | Erlc.Net/ErlcClient.cs:161-202 | the shared algorithm for join logs; its parse message names "join logs" |
| `Client.GetPlayersInQueue` | Erlc.Net/ErlcClient.cs:211-248 | as written, 403 is the only failure. Every other status, 4xx and 5xx included, returns `Success=true` with whatever was parsed and no message |
| `Client.GetPlayersInQueueIntended` | Erlc.Net/ErlcClient.cs:211-248 | with the missing returns restored, the queue follows the shared algorithm; its parse message names "queue" |
| `Client.QueueConformsExactly` | Erlc.Net/ErlcClient.cs:223-248 | the queue as written conveys the expected outcome exactly for a 403, and for a 2xx status with a parsed body |
| `Client.QueueServerErrorIsSuccess` | Erlc.Net/ErlcClient.cs:223-230 | a 500 with nothing parsed should be a request failure, but the queue as written reports it as a success |
| `Client.GetKillLogs` | Erlc.Net/ErlcClient.cs:257-296 | as written, 403 and the other non-2xx statuses fail as the shared algorithm says. A 2xx status always gives `Success=true` with whatever was parsed, null included |
| `Client.GetKillLogsIntended` | Erlc.Net/ErlcClient.cs:257-296 | with the missing return restored, kill logs follow the shared algorithm; its parse message names "kill logs" |
| `Client.KillLogsConformExactly` | Erlc.Net/ErlcClient.cs:280-296 | kill logs as written convey the expected outcome in every case except a 2xx status with a null parse |
| `Client.KillLogsNullParseIsSuccess` | Erlc.Net/ErlcClient.cs:280-296 | a 200 with a null parse should be a parse failure, but kill logs as written report it as a success with no result |
| `Client.KillLogsAgreeWhereConforming` | Erlc.Net/ErlcClient.cs:257-296 | outside that case, the kill logs as written return exactly what the corrected version returns |
| `Client.GetCommandLogs` | Erlc.Net/ErlcClient.cs:305-346 | the shared algorithm for command logs; its parse message names "command logs" |
| `Client.GetModCallLogs` | Erlc.Net/ErlcClient.cs:355-396 | the shared algorithm for moderator calls; its parse message names "mod call logs" |
| `Client.GetBans` | Erlc.Net/ErlcClient.cs:405-446 | the shared algorithm for the ban map; its parse message names "command logs" |
| `Client.GetSpawnedVehicles` | Erlc.Net/ErlcClient.cs:455-496 | the shared algorithm for vehicles; its parse message names "command logs" |
| `Client.Server.constructor` | Erlc.Net/Entities/Server.cs:8-41 | a server read from JSON carries the fields it was given and has no client yet |
| `Client.ErlcClient.constructor` | Erlc.Net/ErlcClient.cs:12-21 | construction only records the token and the version; without a version the client uses version 1 |
| `Client.ErlcClient.Url` | Erlc.Net/ErlcClient.cs:14-16 | the URL a client's request goes to is the origin, `/` and the path, whatever version the client was given |
| `Client.ErlcClient.GetServer` | Erlc.Net/ErlcClient.cs:54-103 | the response is the shared algorithm's. On success, the returned server's `Client` is this client. A server that is not returned keeps its `Client` |
| `Exceptions.ThrowIfInvalid` | Erlc.Net/Exceptions/InvalidTokenException.cs:21-25 | throws exactly when the status is 403; it reads only the status and changes nothing |
| `Exceptions.OnlyForbiddenThrows` | Erlc.Net/Exceptions/InvalidTokenException.cs:23 | for every other status, whether another 4xx, a 5xx or a success, it returns normally |
| `Exceptions.ThrowsIffClientReportsInvalidToken` | Erlc.Net/Exceptions/InvalidTokenException.cs:19-25 | the exception's message is "Invalid access token". The check throws exactly when RunCommand, and the shared fetch algorithm whatever the parse outcome, answer with that same message |

## Left out

- The HTTP transport (`HttpClient`, `SendAsync`, `async`/`Task`). It is replaced by the status code each operation receives. Transport failures are thrown by the transport and pass through unchanged, so they are not modelled.
- JSON reading and writing (`ReadFromJsonAsync`, `JsonContent.Create`). Their outcome is an `Option` input. JSON exceptions are not modelled, including those raised when the queue operation reads an error body.
- The text of `HttpResponseMessage.ToString()` in parse-failure messages. It is a `responseText` input.
- The `DateTime` properties of the log entities. They are a library conversion of Unix seconds.
- The `server-key` header holding the access token (Erlc.Net/ErlcClient.cs:17-20). It is configuration of the transport, which is not modelled, so no contract says that requests carry it. Header-value validation in `DefaultRequestHeaders.Add` is library behaviour and is left out with it.
- Server's data fields (name, owner, player counts, …) are `const` here. The library never changes them, though C# lets callers set them.
- `PlayerName.Player` is assumed non-null, as its `required string` type declares. A JSON `null` placed there by the reader is not modelled.
- `ToText` (the PlayerName-to-string conversion) has no contract of its own. `TextRoundTrip` and `FromText` state what it does.
- `Uris.Merge`: the `remove_dot_segments` step of section 5.2.4 of RFC 3986 is not modelled, because no request path contains a dot segment (`Endpoints.PathOf`).
- Concurrent calls on one client are not modelled. The client holds no mutable state after construction.

## Findings

| source | as written | input that shows it | evidently intended | confidence | as-written member | corrected member |
|---|---|---|---|---|---|---|
| Erlc.Net/ErlcClient.cs:16 | `BaseAddress` is `https://api.policeroleplay.community/v{version}` with no trailing `/`. Resolving a relative path such as `server/players` against it replaces the last segment `v1` (section 5.2.3 of RFC 3986) | version 1, GetPlayers: the URL is `https://api.policeroleplay.community/server/players` | `https://api.policeroleplay.community/v1/server/players` | not executed; high | `Endpoints.RequestUrl` | `Endpoints.IntendedRequestUrl` |
| Erlc.Net/ErlcClient.cs:223-248 | the failure responses for a non-2xx status and for a null parse are built but never returned | status 500, nothing parsed: `Success=true` with no result | the failure is returned, as in the other fetch operations | not executed; high | `Client.QueueServerErrorIsSuccess` | `Client.GetPlayersInQueueIntended` |
| Erlc.Net/ErlcClient.cs:281-289 | the failure response for a null parse is built but never returned | status 200, null parse: `Success=true` with no result | a parse failure, "Unable to parse kill logs response: …" | not executed; high | `Client.KillLogsNullParseIsSuccess` | `Client.GetKillLogsIntended` |
