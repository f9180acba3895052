/**
 * The authoritative game session of server.js: the process-wide state
 * (players, current drawer, current word, canvas history) and every socket
 * handler that reads or updates it. Each emit is appended to `outbox` with its
 * recipient; a setTimeout(nextTurn, 3020) is counted in `pendingTurns` and
 * fires as a separate step, RunScheduledTurn.
 */
module Session {
  import opened Protocol
  import opened Players
  import opened Turns

  /** How a call of nextTurn ends. */
  datatype TurnOutcome =
    | Started(drawsUsed: nat)  // the loop stopped after that many oracle draws
    | Crashed                  // players is empty: players[0].socketId throws
    | DrawsExhausted           // the loop had not stopped when the supplied draws ran out

  /** new-turn-response { drawingName } to every entry that is not the drawer, in registry order. */
  function GuesserNotices(ps: seq<Player>, drawerId: string, drawerName: string): seq<Event> {
    if |ps| == 0 then []
    else GuesserNotices(ps[..|ps| - 1], drawerId, drawerName)
         + (if ps[|ps| - 1].socketId != drawerId
            then [Event(Only(ps[|ps| - 1].socketId), NewTurnDrawer(drawerName))] else [])
  }

  /** The four broadcasts that close a turn change: clear, black style, slider reset, scoreboard. */
  function TurnResetEvents(ps: seq<Player>): seq<Event> {
    [Event(Everyone, ClearCanvasResponse), Event(Everyone, NewStyleResponse("black")),
     Event(Everyone, ResetLineWidthSlider), Event(Everyone, PlayersData(ps))]
  }

  /** Everything nextTurn emits once the new drawer and word are fixed, in order. */
  function TurnStartEvents(ps: seq<Player>, drawerId: string, drawerName: string, word: string): seq<Event> {
    [Event(Only(drawerId), NewTurnWord(word))] + GuesserNotices(ps, drawerId, drawerName) + TurnResetEvents(ps)
  }

  /** The canvas history replayed point-to-point to a joining socket. */
  function Replay(joinerId: string, h: seq<Drawing>): (r: seq<Event>)
    ensures |r| == |h|
    ensures forall k :: 0 <= k < |h| ==> r[k] == Event(Only(joinerId), DrawingResponse(h[k]))
  {
    if |h| == 0 then [] else Replay(joinerId, h[..|h| - 1]) + [Event(Only(joinerId), DrawingResponse(h[|h| - 1]))]
  }

  /** What new-user-request emits before it decides whether to start the game. */
  function JoinEvents(joinerId: string, name: string, h: seq<Drawing>, drawerId: string): seq<Event> {
    [Event(AllBut(joinerId), NewUserResponse(name)), Event(Only(joinerId), NewSocketId(joinerId))]
    + Replay(joinerId, h)
    + [Event(Only(drawerId), CurrentTimeRequest(joinerId))]
  }

  /**
   * The drawer's name goes to exactly the entries that are not the drawer:
   * every notice is addressed to a registered non-drawer, and every
   * registered non-drawer gets one.
   */
  lemma {:induction false} GuesserNoticesReachExactlyGuessers(ps: seq<Player>, drawerId: string, drawerName: string)
    ensures forall e :: e in GuesserNotices(ps, drawerId, drawerName) ==>
      e.to.Only? && e.to.socketId != drawerId && Registered(ps, e.to.socketId) && e.msg == NewTurnDrawer(drawerName)
    ensures forall j :: 0 <= j < |ps| && ps[j].socketId != drawerId ==>
      Event(Only(ps[j].socketId), NewTurnDrawer(drawerName)) in GuesserNotices(ps, drawerId, drawerName)
  {
    if |ps| > 0 {
      var init := ps[..|ps| - 1];
      GuesserNoticesReachExactlyGuessers(init, drawerId, drawerName);
      forall e | e in GuesserNotices(init, drawerId, drawerName)
        ensures Registered(ps, e.to.socketId)
      {
        var j :| 0 <= j < |init| && init[j].socketId == e.to.socketId;
        assert ps[j].socketId == e.to.socketId;
      }
      forall j | 0 <= j < |ps| && ps[j].socketId != drawerId
        ensures Event(Only(ps[j].socketId), NewTurnDrawer(drawerName)) in GuesserNotices(ps, drawerId, drawerName)
      {
        if j < |ps| - 1 {
          assert init[j] == ps[j];
        }
      }
    }
  }

  /**
   * The secret word is sent to the drawer alone: the only word-carrying event
   * of a turn change is addressed to the drawer's socket.
   */
  lemma WordReachesOnlyDrawer(ps: seq<Player>, drawerId: string, drawerName: string, word: string)
    ensures forall e :: e in TurnStartEvents(ps, drawerId, drawerName, word) && e.msg.NewTurnWord? ==>
      e == Event(Only(drawerId), NewTurnWord(word))
  {
    GuesserNoticesReachExactlyGuessers(ps, drawerId, drawerName);
  }

  class GameSession {
    var players: seq<Player>
    var currentPlayerId: string
    var currentPlayerName: string
    var currentWord: string
    var history: seq<Drawing>
    var outbox: seq<Event>
    var pendingTurns: nat

    /**
     * Until the first turn the drawer fields are all empty; afterwards the
     * word is one of the pool. Whether the drawer is still registered is NOT
     * part of it: a disconnect does not clear currentPlayerId.
     */
    ghost predicate Valid()
      reads this
    {
      && (currentWord == "" ==> currentPlayerId == "" && currentPlayerName == "")
      && (currentWord != "" ==> currentWord in Words)
    }

    /** The state at process start. */
    constructor ()
      ensures Valid()
      ensures players == [] && currentPlayerId == "" && currentPlayerName == "" && currentWord == ""
      ensures history == [] && outbox == [] && pendingTurns == 0
    {
      players, currentPlayerId, currentPlayerName, currentWord := [], "", "", "";
      history, outbox, pendingTurns := [], [], 0;
    }

    /**
     * isNotDrawingPlayer. Before the first turn the drawer id is empty, so
     * every socket with a real (non-empty) id is turned away.
     */
    predicate IsNotDrawingPlayer(socketId: string)
      reads this
      ensures Valid() && currentWord == "" ==> (IsNotDrawingPlayer(socketId) <==> socketId != "")
    {
      socketId != currentPlayerId
    }

    /**
     * The state after a completed nextTurn that started from drawer `lastId`,
     * word `lastWord` and outbox `before`: the first accepting draw was taken,
     * drawer and word both changed, the drawer is registered, the history is
     * empty and the turn-start events were appended.
     */
    predicate TurnStartedFrom(lastId: string, lastWord: string, before: seq<Event>, draws: seq<Draw>, used: nat)
      reads this
    {
      && DrawsInRange(draws, |players|)
      && 1 <= used <= |draws|
      && FirstAccepted(players, lastId, lastWord, draws) == Some(used - 1)
      && currentPlayerId == players[draws[used - 1].player].socketId
      && currentPlayerName == players[draws[used - 1].player].name
      && currentWord == Words[draws[used - 1].word]
      && currentPlayerId != lastId
      && currentWord != lastWord
      && Registered(players, currentPlayerId)
      && currentWord in Words
      && history == []
      && outbox == before + TurnStartEvents(players, currentPlayerId, currentPlayerName, currentWord)
    }

    // ---- 1.1 Canvas -------------------------------------------------------

    /** drawing-request: the drawer's stroke is broadcast and appended; anyone else's is dropped. */
    method DrawingRequest(sender: string, drawing: Drawing)
      modifies this`history, this`outbox
      ensures !old(IsNotDrawingPlayer(sender)) ==>
        outbox == old(outbox) + [Event(Everyone, DrawingResponse(drawing))] && history == old(history) + [drawing]
      ensures old(IsNotDrawingPlayer(sender)) ==> outbox == old(outbox) && history == old(history)
    {
      if IsNotDrawingPlayer(sender) { return; }
      outbox := outbox + [Event(Everyone, DrawingResponse(drawing))];
      history := history + [drawing];
    }

    /** new-style-request: the drawer's colour is broadcast; the history is never touched. */
    method NewStyleRequest(sender: string, strokeStyle: string)
      modifies this`outbox
      ensures !IsNotDrawingPlayer(sender) ==> outbox == old(outbox) + [Event(Everyone, NewStyleResponse(strokeStyle))]
      ensures IsNotDrawingPlayer(sender) ==> outbox == old(outbox)
    {
      if IsNotDrawingPlayer(sender) { return; }
      outbox := outbox + [Event(Everyone, NewStyleResponse(strokeStyle))];
    }

    /** clear-canvas-request: the drawer empties the history and a clear is broadcast. */
    method ClearCanvasRequest(sender: string)
      modifies this`history, this`outbox
      ensures !IsNotDrawingPlayer(sender) ==> outbox == old(outbox) + [Event(Everyone, ClearCanvasResponse)] && history == []
      ensures IsNotDrawingPlayer(sender) ==> outbox == old(outbox) && history == old(history)
    {
      if IsNotDrawingPlayer(sender) { return; }
      outbox := outbox + [Event(Everyone, ClearCanvasResponse)];
      history := [];
    }

    // ---- 1.2 Guess ----------------------------------------------------------

    /**
     * new-guess-request: the guess is always echoed to everybody else. A
     * correct answer from anyone but the drawer is announced, scores 5 for the
     * sender's first entry and schedules a nextTurn; there is no guard against
     * a turn change that is already scheduled.
     */
    method NewGuessRequest(sender: string, guess: string) returns (scored: bool)
      modifies this`players, this`outbox, this`pendingTurns
      ensures scored == (IsCorrectAnswer(guess, currentWord) && sender != currentPlayerId)
      ensures players == if scored then WithFivePoints(old(players), sender) else old(players)
      ensures outbox == old(outbox) + [Event(AllBut(sender), NewGuessResponse(NameOf(old(players), sender), guess))]
                        + (if scored then [Event(Everyone, CorrectAnswer(currentWord, NameOf(old(players), sender)))] else [])
      ensures pendingTurns == old(pendingTurns) + (if scored then 1 else 0)
    {
      var name := GetNameById(sender);
      outbox := outbox + [Event(AllBut(sender), NewGuessResponse(name, guess))];
      scored := IsCorrectAnswer(guess, currentWord) && IsNotDrawingPlayer(sender);
      if scored {
        var guesserName := GetNameById(sender);
        outbox := outbox + [Event(Everyone, CorrectAnswer(currentWord, guesserName))];
        Add5Points(sender);
        pendingTurns := pendingTurns + 1;
      }
    }

    // ---- 1.3 Timing ---------------------------------------------------------

    /** time-is-up-request: only the drawer's request reveals the word and schedules a nextTurn. */
    method TimeIsUpRequest(sender: string)
      modifies this`outbox, this`pendingTurns
      ensures !IsNotDrawingPlayer(sender) ==>
        outbox == old(outbox) + [Event(Everyone, TimeIsUpResponse(currentWord))] && pendingTurns == old(pendingTurns) + 1
      ensures IsNotDrawingPlayer(sender) ==> outbox == old(outbox) && pendingTurns == old(pendingTurns)
    {
      if IsNotDrawingPlayer(sender) { return; }
      outbox := outbox + [Event(Everyone, TimeIsUpResponse(currentWord))];
      pendingTurns := pendingTurns + 1;
    }

    /** A scheduled setTimeout(nextTurn, 3020) fires. */
    method RunScheduledTurn(draws: seq<Draw>) returns (outcome: TurnOutcome)
      requires Valid()
      requires pendingTurns > 0
      requires players != [] ==> DrawsInRange(draws, |players|)
      modifies this
      ensures Valid()
      ensures pendingTurns == old(pendingTurns) - 1 && players == old(players)
      ensures outcome.Crashed? <==> players == []
      ensures outcome.Crashed? ==>
        currentPlayerId == old(currentPlayerId) && currentPlayerName == old(currentPlayerName) && currentWord == old(currentWord)
      ensures outcome.DrawsExhausted? <==>
        players != [] && FirstAccepted(players, old(currentPlayerId), old(currentWord), draws) == None
      ensures outcome.Started? ==> TurnStartedFrom(old(currentPlayerId), old(currentWord), old(outbox), draws, outcome.drawsUsed)
      ensures !outcome.Started? ==> history == old(history) && outbox == old(outbox)
    {
      pendingTurns := pendingTurns - 1;
      outcome := NextTurn(draws);
    }

    // ---- 1.4 New connection -------------------------------------------------

    /**
     * new-user-request: the joiner is appended with 0 points, announced to the
     * others, told its id, sent the whole current history in order, and the
     * drawer is asked for the elapsed time; the game starts exactly when the
     * registry now holds two entries.
     */
    method NewUserRequest(sender: string, name: string, draws: seq<Draw>) returns (outcome: Option<TurnOutcome>)
      requires Valid()
      requires DrawsInRange(draws, |players| + 1)
      modifies this
      ensures Valid()
      ensures pendingTurns == old(pendingTurns)
      ensures players == old(players) + [Player(sender, name, 0)]
      ensures outcome.Some? <==> |players| == 2
      ensures old(outbox) + JoinEvents(sender, name, old(history), old(currentPlayerId)) <= outbox
      ensures outcome.None? ==>
        && outbox == old(outbox) + JoinEvents(sender, name, old(history), old(currentPlayerId))
        && history == old(history)
        && currentPlayerId == old(currentPlayerId) && currentPlayerName == old(currentPlayerName)
        && currentWord == old(currentWord)
      ensures outcome.Some? ==> !outcome.value.Crashed?
      ensures outcome.Some? && outcome.value.DrawsExhausted? ==>
        FirstAccepted(players, old(currentPlayerId), old(currentWord), draws) == None
      ensures outcome.Some? && outcome.value.Started? ==>
        TurnStartedFrom(old(currentPlayerId), old(currentWord),
                        old(outbox) + JoinEvents(sender, name, old(history), old(currentPlayerId)),
                        draws, outcome.value.drawsUsed)
    {
      players := players + [Player(sender, name, 0)];
      outbox := outbox + [Event(AllBut(sender), NewUserResponse(name)), Event(Only(sender), NewSocketId(sender))];
      ghost var base := outbox;
      var i := 0;
      while i < |history|
        invariant i <= |history|
        invariant outbox == base + Replay(sender, history[..i])
        modifies this`outbox
      {
        outbox := outbox + [Event(Only(sender), DrawingResponse(history[i]))];
        assert history[..i + 1][..i] == history[..i];
        i := i + 1;
      }
      assert history[..i] == history;
      outbox := outbox + [Event(Only(currentPlayerId), CurrentTimeRequest(sender))];
      assert outbox == old(outbox) + JoinEvents(sender, name, history, currentPlayerId);
      if |players| == 2 {
        var o := NextTurn(draws);
        outcome := Some(o);
      } else {
        outcome := None;
      }
    }

    // ---- 1.5 Disconnection --------------------------------------------------

    /**
     * disconnect: the socket's first entry is removed and game-over is
     * broadcast exactly when one entry is left. The drawer fields are kept,
     * so the drawer may no longer be registered afterwards.
     */
    method Disconnect(sender: string)
      modifies this`players, this`outbox
      ensures players == WithoutPlayer(old(players), sender)
      ensures outbox == old(outbox) + (if |players| == 1 then [Event(Everyone, GameOver)] else [])
    {
      DeletePlayer(sender);
      if |players| == 1 {
        outbox := outbox + [Event(Everyone, GameOver)];
      }
    }

    // ---- 2 Helpers ----------------------------------------------------------

    /** randomlyAssignNewTurnDetails, with the oracle's answer as a parameter. */
    method RandomlyAssignNewTurnDetails(d: Draw)
      requires DrawInRange(d, |players|)
      modifies this`currentPlayerId, this`currentPlayerName, this`currentWord
      ensures currentPlayerId == players[d.player].socketId
      ensures currentPlayerName == players[d.player].name
      ensures currentWord == Words[d.word]
    {
      currentPlayerId := players[d.player].socketId;
      currentPlayerName := players[d.player].name;
      currentWord := Words[d.word];
    }

    /**
     * nextTurn: resample (drawer, word) until BOTH differ from the previous
     * turn's, then notify the drawer, notify everybody else, reset the history
     * and broadcast the reset. The loop body runs at least once, because the
     * previous drawer is the current one on entry.
     */
    method NextTurn(draws: seq<Draw>) returns (outcome: TurnOutcome)
      requires Valid()
      requires players != [] ==> DrawsInRange(draws, |players|)
      modifies this`currentPlayerId, this`currentPlayerName, this`currentWord, this`history, this`outbox
      ensures Valid()
      ensures outcome.Crashed? <==> players == []
      ensures outcome.Crashed? ==>
        currentPlayerId == old(currentPlayerId) && currentPlayerName == old(currentPlayerName) && currentWord == old(currentWord)
      ensures outcome.DrawsExhausted? <==>
        players != [] && FirstAccepted(players, old(currentPlayerId), old(currentWord), draws) == None
      ensures !outcome.Started? ==> history == old(history) && outbox == old(outbox)
      ensures outcome.Started? ==> TurnStartedFrom(old(currentPlayerId), old(currentWord), old(outbox), draws, outcome.drawsUsed)
    {
      if |players| == 0 {
        return Crashed;
      }
      var lastPlayerId, lastWord := currentPlayerId, currentWord;
      var k := 0;
      while lastPlayerId == currentPlayerId || lastWord == currentWord
        invariant k <= |draws|
        invariant Valid()
        invariant history == old(history) && outbox == old(outbox)
        invariant forall j :: 0 <= j < k - 1 ==> !Accepts(players, lastPlayerId, lastWord, draws[j])
        invariant k == 0 ==> currentPlayerId == lastPlayerId
        invariant k > 0 ==>
          && currentPlayerId == players[draws[k - 1].player].socketId
          && currentPlayerName == players[draws[k - 1].player].name
          && currentWord == Words[draws[k - 1].word]
        decreases |draws| - k
      {
        if k == |draws| {
          return DrawsExhausted;
        }
        RandomlyAssignNewTurnDetails(draws[k]);
        k := k + 1;
      }
      assert Accepts(players, lastPlayerId, lastWord, draws[k - 1]);
      assert Registered(players, currentPlayerId) by {
        assert players[draws[k - 1].player].socketId == currentPlayerId;
      }
      AnnounceTurn();
      outcome := Started(k);
    }

    /**
     * The part of nextTurn after its loop: the word to the drawer, the
     * drawer's name to every other entry, then the history reset and the
     * clear, style, slider and scoreboard broadcasts, in that order.
     */
    method AnnounceTurn()
      modifies this`history, this`outbox
      ensures history == []
      ensures outbox == old(outbox) + TurnStartEvents(players, currentPlayerId, currentPlayerName, currentWord)
    {
      outbox := outbox + [Event(Only(currentPlayerId), NewTurnWord(currentWord))];

      ghost var base := outbox;
      var i := 0;
      while i < |players|
        invariant i <= |players|
        invariant outbox == base + GuesserNotices(players[..i], currentPlayerId, currentPlayerName)
      {
        if IsNotDrawingPlayer(players[i].socketId) {
          outbox := outbox + [Event(Only(players[i].socketId), NewTurnDrawer(currentPlayerName))];
        }
        assert players[..i + 1][..i] == players[..i];
        i := i + 1;
      }
      assert players[..i] == players;

      history := [];
      outbox := outbox + [Event(Everyone, ClearCanvasResponse)];
      outbox := outbox + [Event(Everyone, NewStyleResponse("black"))];
      outbox := outbox + [Event(Everyone, ResetLineWidthSlider)];
      outbox := outbox + [Event(Everyone, PlayersData(players))];
    }

    /** add5Points: the first entry with that id gains 5 points. */
    method Add5Points(socketId: string)
      modifies this`players
      ensures players == WithFivePoints(old(players), socketId)
    {
      var i := 0;
      while i < |players|
        invariant i <= |players| && players == old(players)
        invariant forall j :: 0 <= j < i ==> players[j].socketId != socketId
      {
        if players[i].socketId == socketId {
          assert FirstIndex(players, socketId) == Some(i);
          players := players[i := players[i].(points := players[i].points + 5)];
          break;
        }
        i := i + 1;
      }
    }

    /** deletePlayer: the first entry with that id is spliced out. */
    method DeletePlayer(socketId: string)
      modifies this`players
      ensures players == WithoutPlayer(old(players), socketId)
    {
      var i := 0;
      while i < |players|
        invariant i <= |players| && players == old(players)
        invariant forall j :: 0 <= j < i ==> players[j].socketId != socketId
      {
        if players[i].socketId == socketId {
          assert FirstIndex(players, socketId) == Some(i);
          players := players[..i] + players[i + 1..];
          break;
        }
        i := i + 1;
      }
    }

    /** getNameById: the first matching entry's name, None for `undefined`. */
    method GetNameById(socketId: string) returns (name: Option<string>)
      ensures name == NameOf(players, socketId)
    {
      var i := 0;
      while i < |players|
        invariant i <= |players|
        invariant forall j :: 0 <= j < i ==> players[j].socketId != socketId
      {
        if players[i].socketId == socketId {
          assert FirstIndex(players, socketId) == Some(i);
          return Some(players[i].name);
        }
        i := i + 1;
      }
      return None;
    }
  }
}
