/** Values that travel between the game server and its browser clients. */
module Protocol {

  datatype Option<T> = None | Some(value: T)

  /** One entry of the server's `players` array: socket id, display name, score. */
  datatype Player = Player(socketId: string, name: string, points: nat)

  /**
   * One stroke as the client's getDrawing builds it. Canvas coordinates are
   * floating point in the browser; they are integers here.
   */
  datatype Drawing = Drawing(lineWidth: int, strokeStyle: string,
                             fromX: int, fromY: int, toX: int, toY: int)

  /** Who receives a server emit. */
  datatype Recipient =
    | Everyone                 // io.sockets.emit
    | AllBut(except: string)   // socket.broadcast.emit from the socket `except`
    | Only(socketId: string)   // io.to(socketId).emit

  /** Server-to-client events, one constructor per event name the server emits. */
  datatype Message =
    | DrawingResponse(drawing: Drawing)
    | NewStyleResponse(style: string)
    | ClearCanvasResponse
    | NewGuessResponse(name: Option<string>, guess: string)
    | CorrectAnswer(word: string, guesserName: Option<string>)
    | TimeIsUpResponse(revealedWord: string)
    | NewUserResponse(joinedName: string)
    | NewSocketId(assignedId: string)
    | CurrentTimeRequest(requesterId: string)
    | NewTurnWord(secretWord: string)         // new-turn-response { word }
    | NewTurnDrawer(drawingName: string)      // new-turn-response { drawingName }
    | ResetLineWidthSlider
    | PlayersData(players: seq<Player>)
    | GameOver

  datatype Event = Event(to: Recipient, msg: Message)

  /** Client-to-server requests that the modelled client code emits. */
  datatype Request =
    | DrawingRequest(drawing: Drawing)
    | TimeIsUpRequest

  /** A browser client's socket, seen as the log of the requests it has emitted. */
  class ClientSocket {
    var sent: seq<Request>

    constructor ()
      ensures sent == []
    {
      sent := [];
    }

    /** socket.emit(request) */
    method Emit(r: Request)
      modifies this
      ensures sent == old(sent) + [r]
    {
      sent := sent + [r];
    }
  }
}
