/** The records the API returns (Erlc.Net/Entities). They carry data only;
    the derived `DateTime` properties are not part of this model. */
module Entities {

  import opened Wrappers
  import opened PlayerNames

  /** C#'s `byte`. */
  newtype Byte = x: int | 0 <= x < 0x100

  /** C#'s `ulong`. */
  newtype ULong = x: int | 0 <= x < 0x1_0000_0000_0000_0000

  /** An online player (ErlcPlayer.cs); `callsign` only on non-civilian teams. */
  datatype ErlcPlayer = ErlcPlayer(player: PlayerName, permission: string, callsign: Option<string>, team: string)

  /** A join or leave event; `timestamp` in seconds since the Unix epoch. */
  datatype JoinLog = JoinLog(join: bool, timestamp: int, player: PlayerName)

  /** A kill event. */
  datatype KillLog = KillLog(killed: PlayerName, timestamp: int, killer: PlayerName)

  /** A command run by a moderator, with its prefix and arguments. */
  datatype CommandLog = CommandLog(player: PlayerName, timestamp: int, command: string)

  /** A call for a moderator; `moderator` is absent while unanswered. */
  datatype ModeratorCallLog = ModeratorCallLog(caller: PlayerName, moderator: Option<PlayerName>, timestamp: int)

  /** A spawned vehicle; its owner is the raw "name:id" string. */
  datatype SpawnedVehicle = SpawnedVehicle(texture: Option<string>, name: string, owner: string)

  /** The ban list: user id to user name. */
  type Bans = map<string, string>
}
