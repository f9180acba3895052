/**
 * Short runs of the session, written as methods that drive a fresh
 * GameSession through the socket handlers and report what came out.
 */
module Scenarios {
  import opened Protocol
  import opened Players
  import opened Turns
  import opened Session

  /** "table" and "dress" are correct answers for TABLE and DRESS. */
  lemma LowerCaseAnswers()
    ensures IsCorrectAnswer("table", "TABLE") && IsCorrectAnswer("dress", "DRESS")
  {
    LowerCaseWordIsCorrect(3);
    LowerCaseWordIsCorrect(1);
    assert ToLower("TABLE") == "table" && ToLower("DRESS") == "dress";
  }

  /**
   * A and B join; the oracle makes A draw TABLE. B guesses "table": B scores
   * 5, A keeps 0, and one nextTurn is scheduled.
   */
  method GuessScores() returns (aPoints: nat, bPoints: nat, pending: nat)
    ensures aPoints == 0 && bPoints == 5 && pending == 1
  {
    var s := new GameSession();
    var first := s.NewUserRequest("A", "Ann", []);
    var start := s.NewUserRequest("B", "Bob", [Draw(0, 3)]);
    assert s.currentPlayerId == "A" && s.currentWord == "TABLE";
    LowerCaseAnswers();
    var scored := s.NewGuessRequest("B", "table");
    assert FirstIndex([Player("A", "Ann", 0), Player("B", "Bob", 0)], "B") == Some(1);
    aPoints, bPoints, pending := s.players[0].points, s.players[1].points, s.pendingTurns;
  }

  /**
   * A draws TABLE and reports time-up. When the turn change fires, the
   * oracle first offers A again and then B with TABLE again (both rejected);
   * the third draw, B with AUTOMOBILE, is taken.
   */
  method RejectedDrawsAreSkipped() returns (newDrawer: string, newWord: string, drawsUsed: nat)
    ensures newDrawer == "B" && newWord == "AUTOMOBILE" && drawsUsed == 3
  {
    var s := new GameSession();
    var first := s.NewUserRequest("A", "Ann", []);
    var start := s.NewUserRequest("B", "Bob", [Draw(0, 3)]);
    assert s.currentPlayerId == "A" && s.currentWord == "TABLE";
    s.TimeIsUpRequest("A");
    var draws := [Draw(0, 0), Draw(1, 3), Draw(1, 0)];
    assert Accepts(s.players, "A", "TABLE", draws[2]);
    var outcome := s.RunScheduledTurn(draws);
    assert !Accepts(s.players, "A", "TABLE", draws[0]) && !Accepts(s.players, "A", "TABLE", draws[1]);
    newDrawer, newWord, drawsUsed := s.currentPlayerId, s.currentWord, outcome.drawsUsed;
  }

  /**
   * The drawer reports time-up and a guesser then answers correctly within
   * the settle delay: two turn changes are pending for the same turn.
   */
  method TimeUpAndGuessBothSchedule() returns (pending: nat)
    ensures pending == 2
  {
    LowerCaseAnswers();
    var s := new GameSession();
    var first := s.NewUserRequest("A", "Ann", []);
    var start := s.NewUserRequest("B", "Bob", [Draw(0, 1)]);
    assert s.currentPlayerId == "A" && s.currentWord == "DRESS" && s.pendingTurns == 0;
    s.TimeIsUpRequest("A");
    assert s.pendingTurns == 1;
    var scored := s.NewGuessRequest("B", "dress");
    assert scored;
    pending := s.pendingTurns;
  }

  /**
   * The same guesser answers correctly twice within the settle delay: there
   * is no guard, so B scores twice and two turn changes are pending.
   */
  method RepeatedGuessScoresTwice() returns (bPoints: nat, pending: nat)
    ensures bPoints == 10 && pending == 2
  {
    LowerCaseAnswers();
    var s := new GameSession();
    var first := s.NewUserRequest("A", "Ann", []);
    var start := s.NewUserRequest("B", "Bob", [Draw(0, 3)]);
    assert s.currentPlayerId == "A" && s.currentWord == "TABLE" && s.pendingTurns == 0;
    var once := s.NewGuessRequest("B", "table");
    assert once && s.pendingTurns == 1;
    assert FirstIndex([Player("A", "Ann", 0), Player("B", "Bob", 0)], "B") == Some(1);
    assert s.players == [Player("A", "Ann", 0), Player("B", "Bob", 5)];
    var twice := s.NewGuessRequest("B", "table");
    assert twice;
    assert FirstIndex([Player("A", "Ann", 0), Player("B", "Bob", 5)], "B") == Some(1);
    bPoints, pending := s.players[1].points, s.pendingTurns;
  }

  /**
   * A and B play with A drawing; A disconnects. B is the only entry left, so
   * game-over is broadcast, and the drawer id still names A, who is no
   * longer registered.
   */
  method DrawerLeaves() returns (lastEvent: Event, drawerRegistered: bool)
    ensures lastEvent == Event(Everyone, GameOver)
    ensures !drawerRegistered
  {
    var s := new GameSession();
    var first := s.NewUserRequest("A", "Ann", []);
    var start := s.NewUserRequest("B", "Bob", [Draw(0, 2)]);
    assert s.currentPlayerId == "A";
    s.Disconnect("A");
    assert FirstIndex([Player("A", "Ann", 0), Player("B", "Bob", 0)], "A") == Some(0);
    assert s.players == [Player("B", "Bob", 0)];
    lastEvent := s.outbox[|s.outbox| - 1];
    drawerRegistered := Registered(s.players, s.currentPlayerId);
  }

  /**
   * The drawer strokes twice and clears; a socket joining afterwards is
   * replayed nothing: in what the join sends, nothing lies between the new
   * socket id and the time request to the drawer. A guesser's stroke in
   * between is dropped.
   */
  method ClearThenJoin() returns (joinEvents: seq<Event>)
    ensures joinEvents == [Event(AllBut("C"), NewUserResponse("Cy")), Event(Only("C"), NewSocketId("C")),
                           Event(Only("B"), CurrentTimeRequest("C"))]
  {
    var s := new GameSession();
    var first := s.NewUserRequest("A", "Ann", []);
    var start := s.NewUserRequest("B", "Bob", [Draw(1, 4)]);
    assert s.currentPlayerId == "B";
    var d := Drawing(6, "black", 0, 0, 10, 10);
    s.DrawingRequest("B", d);
    s.DrawingRequest("A", d);
    s.DrawingRequest("B", d);
    assert s.history == [d, d];
    s.ClearCanvasRequest("B");
    var before := s.outbox;
    var third := s.NewUserRequest("C", "Cy", []);
    joinEvents := s.outbox[|before|..];
    assert Replay("C", []) == [];
  }
}
