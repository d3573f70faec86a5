// src/game_logic/protocol/ProtocolData.cpp: method names, messages and their text.
module ProtocolMessages {

  datatype MethodName =
    | CONNECTED_OK | REQ_ACCEPTED | REQ_DENIED | TERMINATE_CONNECTION
    | PARSING_FAILED | UNINITIALIZED
    | ENTER_USERNAME | GET_ROOM_LIST | JOIN_GAME
    | GAME_IDLE | GAME_LEAVE | GAME_COMMAND | GAME_STATE | GAME_PING

  const METHOD_NAME_TABLE: map<string, MethodName> :=
    map[
      "CONNECTED_OK" := CONNECTED_OK,
      "REQ_ACCEPTED" := REQ_ACCEPTED,
      "REQ_DENIED" := REQ_DENIED,
      "TERMINATE_CONNECTION" := TERMINATE_CONNECTION,
      "PARSING_FAILED" := PARSING_FAILED,
      "UNINITIALIZED" := UNINITIALIZED,
      "ENTER_USERNAME" := ENTER_USERNAME,
      "GET_ROOM_LIST" := GET_ROOM_LIST,
      "JOIN_GAME" := JOIN_GAME,
      "GAME_IDLE" := GAME_IDLE,
      "GAME_LEAVE" := GAME_LEAVE,
      "GAME_COMMAND" := GAME_COMMAND,
      "GAME_STATE" := GAME_STATE,
      "GAME_PING" := GAME_PING
    ]

  function ParseMethodName(name: string): MethodName {
    if name in METHOD_NAME_TABLE then METHOD_NAME_TABLE[name] else PARSING_FAILED
  }

  // The reversed table.
  function SerializeMethodName(m: MethodName): string {
    match m
    case CONNECTED_OK => "CONNECTED_OK"
    case REQ_ACCEPTED => "REQ_ACCEPTED"
    case REQ_DENIED => "REQ_DENIED"
    case TERMINATE_CONNECTION => "TERMINATE_CONNECTION"
    case PARSING_FAILED => "PARSING_FAILED"
    case UNINITIALIZED => "UNINITIALIZED"
    case ENTER_USERNAME => "ENTER_USERNAME"
    case GET_ROOM_LIST => "GET_ROOM_LIST"
    case JOIN_GAME => "JOIN_GAME"
    case GAME_IDLE => "GAME_IDLE"
    case GAME_LEAVE => "GAME_LEAVE"
    case GAME_COMMAND => "GAME_COMMAND"
    case GAME_STATE => "GAME_STATE"
    case GAME_PING => "GAME_PING"
  }

  datatype ProtocolData = ProtocolData(methodName: MethodName, data: map<string, string>) {
    predicate HasField(name: string) { name in data }

    function GetField(name: string): string
      requires HasField(name)
    {
      data[name]
    }
  }

  lemma SerializeIsInverse(m: MethodName)
    ensures SerializeMethodName(m) in METHOD_NAME_TABLE && ParseMethodName(SerializeMethodName(m)) == m
  {
  }

  lemma TableIsInverse(name: string)
    requires name in METHOD_NAME_TABLE
    ensures SerializeMethodName(METHOD_NAME_TABLE[name]) == name
  {
  }

  predicate PlainText(s: string) {
    forall c :: c in s ==> c != '\n' && c != '\r'
  }

  lemma MethodTextPlain(m: MethodName)
    ensures 0 < |SerializeMethodName(m)| <= 20 && PlainText(SerializeMethodName(m))
  {
    match m
    case CONNECTED_OK => assert PlainText("CONNECTED_OK");
    case REQ_ACCEPTED => assert PlainText("REQ_ACCEPTED");
    case REQ_DENIED => assert PlainText("REQ_DENIED");
    case TERMINATE_CONNECTION => assert PlainText("TERMINATE_CONNECTION");
    case PARSING_FAILED => assert PlainText("PARSING_FAILED");
    case UNINITIALIZED => assert PlainText("UNINITIALIZED");
    case ENTER_USERNAME => assert PlainText("ENTER_USERNAME");
    case GET_ROOM_LIST => assert PlainText("GET_ROOM_LIST");
    case JOIN_GAME => assert PlainText("JOIN_GAME");
    case GAME_IDLE => assert PlainText("GAME_IDLE");
    case GAME_LEAVE => assert PlainText("GAME_LEAVE");
    case GAME_COMMAND => assert PlainText("GAME_COMMAND");
    case GAME_STATE => assert PlainText("GAME_STATE");
    case GAME_PING => assert PlainText("GAME_PING");
  }
}
