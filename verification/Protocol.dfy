/** The DDP frames the runner reads and writes. JSON payloads are opaque text. */
module Protocol {
  import opened Prelude

  datatype Json = JsonNull | JsonText(source: string)

  datatype DdpError = DdpError(code: string, reason: Option<string>, message: Option<string>) {
    /** The reasons both servers give for a dead resume token, matched as substrings. */
    predicate IsExpiredSession() {
      var matches := (text: string) =>
        Contains(text, "been logged out by the server") || Contains(text, "session has expired");
      (reason.Some? && matches(reason.value)) || (message.Some? && matches(message.value))
    }
  }

  predicate Contains(text: string, part: string) {
    exists i :: 0 <= i <= |text| && StartsAt(text, i, part)
  }

  predicate StartsAt(text: string, at: nat, part: string)
    requires at <= |text|
  {
    part <= text[at..]
  }

  datatype ClientMessage =
    | Connect(version: string, support: seq<string>)
    | Method(id: string, name: string, params: seq<Json>)
    | Sub(id: string, name: string, params: seq<Json>)
    | Unsub(id: string)
    | Ping(pingId: Option<string>)
    | Pong(pongId: Option<string>)

  const DDP_VERSION := "1"

  /** What one inbound text frame decodes to; `Unknown` is the catch-all. */
  datatype ServerMessage =
    | Connected(session: string)
    | Failed(version: string)
    | ServerPing(pingId: Option<string>)
    | ServerPong(pongId: Option<string>)
    | Result(id: string, result: Option<Json>, error: Option<DdpError>)
    | Updated(methods: seq<string>)
    | Nosub(id: string, error: Option<DdpError>)
    | SubsReady(subs: seq<string>)
    | Added(collection: string, document: string)
    | Changed(collection: string, document: string)
    | Removed(collection: string, document: string)
    | AddedBefore(collection: string, document: string)
    | MovedBefore(collection: string, document: string)
    | Error(reason: string)
    | Unknown(msg: Option<string>)
  {
    /** A known tag whose contents were not understood. */
    predicate IsMalformed() {
      Unknown? && msg.Some? && msg.value in MODELLED_TAGS
    }

    /** Collection frames and server error reports: passed on to the application. */
    predicate IsForwarded() {
      Added? || Changed? || Removed? || AddedBefore? || MovedBefore? || Error?
    }
  }

  const MODELLED_TAGS := {
    "connected", "failed", "ping", "pong", "result", "updated", "nosub", "ready", "added",
    "changed", "removed", "addedBefore", "movedBefore", "error"
  }
}
