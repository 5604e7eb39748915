/** The connection lifecycle: decoded frames in, actions out. */
module Session {
  import opened Prelude
  import opened Protocol

  datatype Phase = Disconnected | Handshaking | Authenticating | Ready | FatallyClosed

  datatype Fatal =
    | VersionMismatch(version: string, offered: string)
    | SessionExpired(detail: string)
    | LoginRejected(detail: string)

  datatype Action =
    | Send(frame: ClientMessage)
    | Login
    | Resubscribe
    | Stop(fatal: Fatal)
    | ProtocolViolation(msg: Option<string>)

  datatype Lifecycle = Lifecycle(
    phase: Phase, proposed: string, sessionId: Option<string>, loginCall: Option<string>)
  {
    function Connect(): (Lifecycle, Action) {
      (Lifecycle(Handshaking, proposed, None, None), Send(ClientMessage.Connect(DDP_VERSION, [DDP_VERSION])))
    }

    function ExpectLogin(id: string): Lifecycle {
      this.(loginCall := Some(id))
    }

    /** A terminal phase stays terminal when the socket goes too. */
    function Disconnect(): Lifecycle {
      Lifecycle(if phase.FatallyClosed? then phase else Disconnected, proposed, None, None)
    }

    /** Whether `message` answers the outstanding `login`. */
    predicate AnswersLogin(message: ServerMessage) {
      message.Result? && loginCall == Some(message.id)
    }

    function Handle(message: ServerMessage): (Lifecycle, seq<Action>) {
      if message.IsMalformed() then (this, [ProtocolViolation(message.msg)])
      else match message
        case ServerPing(id) => (this, [Send(Pong(id))])
        case Connected(session) =>
          (this.(sessionId := Some(session), phase := Authenticating), [Login])
        case Failed(version) =>
          (this.(phase := FatallyClosed), [Stop(VersionMismatch(proposed, version))])
        case Result(id, _, error) =>
          if loginCall != Some(id) then (this, [])
          else if error.None? then (this.(loginCall := None, phase := Ready), [Resubscribe])
          else (this.(loginCall := None, phase := FatallyClosed),
                [Stop(ClassifyLoginFailure(error.value))])
        case _ => (this, [])
    }
  }

  function ClassifyLoginFailure(error: DdpError): Fatal {
    var detail := if error.reason.Some? then error.reason.value
                  else if error.message.Some? then error.message.value
                  else error.code;
    if error.IsExpiredSession() then SessionExpired(detail) else LoginRejected(detail)
  }

  function NewLifecycle(version: string): Lifecycle {
    Lifecycle(Disconnected, version, None, None)
  }

  class Session {
    const proposed: string
    var phase: Phase
    var sessionId: Option<string>
    var loginCall: Option<string>

    ghost function View(): Lifecycle
      reads this
    {
      Lifecycle(phase, proposed, sessionId, loginCall)
    }

    constructor (version: string)
      ensures View() == NewLifecycle(version)
    {
      proposed := version;
      phase := Disconnected;
      sessionId := None;
      loginCall := None;
    }

    method Connect() returns (action: Action)
      modifies this
      ensures (View(), action) == old(View()).Connect()
    {
      phase := Handshaking;
      sessionId := None;
      loginCall := None;
      action := Send(ClientMessage.Connect(DDP_VERSION, [DDP_VERSION]));
    }

    method ExpectLogin(id: string)
      modifies this
      ensures View() == old(View()).ExpectLogin(id)
    {
      loginCall := Some(id);
    }

    method Disconnect()
      modifies this
      ensures View() == old(View()).Disconnect()
    {
      if phase != FatallyClosed {
        phase := Disconnected;
      }
      sessionId := None;
      loginCall := None;
    }

    method Handle(message: ServerMessage) returns (actions: seq<Action>)
      modifies this
      ensures (View(), actions) == old(View()).Handle(message)
    {
      if message.IsMalformed() {
        return [ProtocolViolation(message.msg)];
      }
      match message {
        case ServerPing(id) =>
          actions := [Send(Pong(id))];
        case Connected(session) =>
          sessionId := Some(session);
          phase := Authenticating;
          actions := [Login];
        case Failed(version) =>
          phase := FatallyClosed;
          actions := [Stop(VersionMismatch(proposed, version))];
        case Result(id, _, error) =>
          if loginCall != Some(id) {
            return [];
          }
          loginCall := None;
          match error {
            case None =>
              phase := Ready;
              actions := [Resubscribe];
            case Some(failure) =>
              phase := FatallyClosed;
              actions := [Stop(ClassifyLoginFailure(failure))];
          }
        case _ =>
          actions := [];
      }
    }
  }
}
