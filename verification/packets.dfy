/** The packet model of the AT engine: the closed set of typed replies and
    notifications that every other part of the model works on. */
module Packets {

  datatype Option<+T> = None | Some(value: T)

  /** One argument of a response line, as tokenized: a quoted or non-numeric
      token is a string, an unquoted number an integer. */
  datatype Arg = Str(s: string) | Int(i: int)

  /** The point in time a timestamp field parses to. The parser itself is
      not part of this model (see Codec.parseTime), so the value is opaque. */
  datatype Timestamp = Timestamp(seconds: int)

  /** A stored SMS as read (+CMGR) or listed (+CMGL). `last` marks the final
      record of a listing. */
  datatype Message = Message(
    index: int,
    status: string,
    telephone: string,
    timestamp: Timestamp,
    body: string,
    last: bool)

  /** Supported storage identifiers for the three storage areas. */
  datatype StorageAreas = StorageAreas(area1: seq<string>, area2: seq<string>, area3: seq<string>)

  /** Used/maximum capacity for the three storage areas. */
  datatype StorageInfo = StorageInfo(
    usedSpace1: int, maxSpace1: int,
    usedSpace2: int, maxSpace2: int,
    usedSpace3: int, maxSpace3: int)

  datatype Packet =
    | OK
    | ERROR
    | MessagePacket(message: Message)
    | MessageNotification(storage: string, index: int)
    | ServiceStatus(status: string)
    | NetworkStatus(network: string)
    | SMSCAddress(args: seq<Arg>)
    | StorageAreasPacket(areas: StorageAreas)
    | StorageInfoPacket(info: StorageInfo)
    | BodyPrompt
    | UnknownPacket(command: string, args: seq<Arg>)

  /** The package's helpers that live outside the engine's file. They are
      supplied from outside and never interpreted here:
      unquotes tokenizes an argument list, stringsUnquotes splits one
      parenthesized storage list, quotes renders command arguments,
      parseTime reads a modem timestamp, gsmEncode encodes a message body,
      startsWith tells whether a line belongs to a command family. */
  datatype Codec = Codec(
    unquotes: string -> seq<Arg>,
    stringsUnquotes: string -> seq<string>,
    quotes: seq<Arg> -> string,
    parseTime: string -> Timestamp,
    gsmEncode: string -> string,
    startsWith: (string, string) -> bool)

  /** The modem's prompt for a raw message body. */
  const BODY_PROMPT: string := "> "
  /** The byte (Ctrl-Z) that ends a message body. */
  const END_BODY: string := "\U{1A}"
  /** The escape byte sent to break out of a hanging body prompt. */
  const ESC: string := "\U{1B}"
}
