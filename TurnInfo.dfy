/**
 * How a client reads new-turn-response (script.js): the payload is "your
 * turn" when comparing Object.keys(data) loosely with the string "word"
 * succeeds. The loose comparison turns the key array into its string form,
 * the keys joined by commas.
 */
module TurnInfo {
  import opened Protocol

  /**
   * A JSON object as its key/value pairs in insertion order (keys distinct).
   * Object.keys lists integer-like keys first; the model assumes none, as the
   * server only sends the keys "word" and "drawingName".
   */
  type Payload = seq<(string, string)>

  /** Object.keys */
  function Keys(p: Payload): (r: seq<string>)
    ensures |r| == |p| && forall i :: 0 <= i < |p| ==> r[i] == p[i].0
  {
    if |p| == 0 then [] else [p[0].0] + Keys(p[1..])
  }

  /** Array.prototype.toString: the elements joined by ",". */
  function JoinWithCommas(ks: seq<string>): string {
    if |ks| == 0 then ""
    else if |ks| == 1 then ks[0]
    else ks[0] + "," + JoinWithCommas(ks[1..])
  }

  /**
   * Object.keys(data) == "word". A payload without keys is never "your turn",
   * and a one-key payload is exactly when that key is "word".
   */
  predicate IsYourTurn(p: Payload)
    ensures |p| == 0 ==> !IsYourTurn(p)
    ensures |p| == 1 ==> (IsYourTurn(p) <==> p[0].0 == "word")
  {
    JoinWithCommas(Keys(p)) == "word"
  }

  /** data[key], None for `undefined`. */
  function Lookup(p: Payload, key: string): Option<string> {
    if |p| == 0 then None else if p[0].0 == key then Some(p[0].1) else Lookup(p[1..], key)
  }

  /** String concatenation of a possibly undefined value. */
  function Show(v: Option<string>): string {
    match v
    case Some(s) => s
    case None => "undefined"
  }

  /**
   * The text shown in the drawing-info element and in the modal: the drawer's
   * text opens with "You are drawing ", everyone else's ends with
   * " is drawing now.".
   */
  function InfoText(p: Payload): (r: string)
    ensures IsYourTurn(p) ==> |r| >= 16 && r[..16] == "You are drawing "
    ensures !IsYourTurn(p) ==> |r| >= 16 && r[|r| - 16..] == " is drawing now."
  {
    if IsYourTurn(p) then "You are drawing " + Show(Lookup(p, "word"))
    else Show(Lookup(p, "drawingName")) + " is drawing now."
  }

  /** The JSON payload the server sends with each of its two new-turn-response forms. */
  function TurnPayload(m: Message): Payload
    requires m.NewTurnWord? || m.NewTurnDrawer?
  {
    match m
    case NewTurnWord(w) => [("word", w)]
    case NewTurnDrawer(n) => [("drawingName", n)]
  }

  /** Two or more keys always join to a string with a comma in it. */
  lemma {:induction false} JoinedHasComma(ks: seq<string>)
    requires |ks| >= 2
    ensures ',' in JoinWithCommas(ks)
  {
    assert JoinWithCommas(ks) == ks[0] + "," + JoinWithCommas(ks[1..]);
    assert JoinWithCommas(ks)[|ks[0]|] == ',';
  }

  /** The loose comparison succeeds exactly when "word" is the payload's only key. */
  lemma YourTurnIffOnlyWordKey(p: Payload)
    ensures IsYourTurn(p) <==> Keys(p) == ["word"]
  {
    var ks := Keys(p);
    if |ks| >= 2 {
      JoinedHasComma(ks);
      assert ',' !in "word";
    } else if |ks| == 1 {
      assert JoinWithCommas(ks) == ks[0];
    }
  }

  /**
   * The drawer's { word } payload reads as "your turn" and shows the word;
   * the { drawingName } payload everybody else gets shows the drawer's name.
   */
  lemma ServerTurnPayloadsClassified(word: string, name: string)
    ensures IsYourTurn(TurnPayload(NewTurnWord(word)))
    ensures InfoText(TurnPayload(NewTurnWord(word))) == "You are drawing " + word
    ensures !IsYourTurn(TurnPayload(NewTurnDrawer(name)))
    ensures InfoText(TurnPayload(NewTurnDrawer(name))) == name + " is drawing now."
  {
    YourTurnIffOnlyWordKey(TurnPayload(NewTurnWord(word)));
    YourTurnIffOnlyWordKey(TurnPayload(NewTurnDrawer(name)));
    assert Keys(TurnPayload(NewTurnDrawer(name))) == ["drawingName"];
    assert "drawingName" != "word";
  }
}
