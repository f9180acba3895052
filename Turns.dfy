/**
 * Turn selection on the server: the fixed word pool, the case-insensitive
 * answer check (isCorrectAnswer) and the acceptance test of nextTurn's
 * resampling loop. Math.random is an oracle: each Draw is one call of
 * randomlyAssignNewTurnDetails, already reduced to a player index and a word
 * index (Math.floor(Math.random() * n) is always below n).
 */
module Turns {
  import opened Protocol

  /** The word pool of the game, all upper-case ASCII. */
  const Words: seq<string> := ["AUTOMOBILE", "DRESS", "LAPTOP", "TABLE", "CHARGER"]

  predicate IsLowerAscii(c: char) { 'a' <= c <= 'z' }
  predicate IsUpperAscii(c: char) { 'A' <= c <= 'Z' }

  function UpperChar(c: char): char {
    if IsLowerAscii(c) then (c as int - 32) as char else c
  }

  function LowerChar(c: char): char {
    if IsUpperAscii(c) then (c as int + 32) as char else c
  }

  /** String.prototype.toUpperCase restricted to ASCII letters. */
  function ToUpper(s: string): (r: string)
    ensures |r| == |s|
    ensures forall i :: 0 <= i < |s| ==> r[i] == UpperChar(s[i])
  {
    if |s| == 0 then "" else [UpperChar(s[0])] + ToUpper(s[1..])
  }

  function ToLower(s: string): (r: string)
    ensures |r| == |s|
    ensures forall i :: 0 <= i < |s| ==> r[i] == LowerChar(s[i])
  {
    if |s| == 0 then "" else [LowerChar(s[0])] + ToLower(s[1..])
  }

  /** No lower-case ASCII letter in `s`. */
  predicate NoLowerAscii(s: string) {
    forall i :: 0 <= i < |s| ==> !IsLowerAscii(s[i])
  }

  /**
   * isCorrectAnswer: the upper-cased guess equals the current word. A correct
   * guess has the word's length, and a word holding a lower-case letter can
   * never be guessed.
   */
  predicate IsCorrectAnswer(guess: string, word: string)
    ensures IsCorrectAnswer(guess, word) ==> |guess| == |word| && NoLowerAscii(word)
  {
    ToUpper(guess) == word
  }

  /** Every word of the pool is upper-case, so upper-casing leaves it as it is. */
  lemma WordsAreUpperCase(k: nat)
    requires k < |Words|
    ensures NoLowerAscii(Words[k]) && ToUpper(Words[k]) == Words[k]
  {
    assert NoLowerAscii(Words[k]);
  }

  /** The pool holds five pairwise different words. */
  lemma WordsDistinct()
    ensures |Words| == 5
    ensures forall i, j :: 0 <= i < j < |Words| ==> Words[i] != Words[j]
  {
  }

  /**
   * Against an upper-case word, a guess is correct exactly when it spells the
   * word letter by letter in either case.
   */
  lemma CorrectAnswerIffCaseVariant(guess: string, word: string)
    requires NoLowerAscii(word)
    ensures IsCorrectAnswer(guess, word) <==>
      |guess| == |word| &&
      forall i :: 0 <= i < |guess| ==> guess[i] == word[i] || guess[i] == LowerChar(word[i])
  {
    if |guess| == |word| && forall i :: 0 <= i < |guess| ==> guess[i] == word[i] || guess[i] == LowerChar(word[i]) {
      assert ToUpper(guess) == word by {
        forall i | 0 <= i < |guess| ensures ToUpper(guess)[i] == word[i] {
          assert !IsLowerAscii(word[i]);
        }
      }
    }
    if IsCorrectAnswer(guess, word) {
      forall i | 0 <= i < |guess|
        ensures guess[i] == word[i] || guess[i] == LowerChar(word[i])
      {
        assert UpperChar(guess[i]) == word[i];
      }
    }
  }

  /** Typing a pool word in lower case (TABLE as "table") is a correct answer. */
  lemma LowerCaseWordIsCorrect(k: nat)
    requires k < |Words|
    ensures IsCorrectAnswer(ToLower(Words[k]), Words[k])
  {
    WordsAreUpperCase(k);
    CorrectAnswerIffCaseVariant(ToLower(Words[k]), Words[k]);
  }

  /**
   * Before the first turn the current word is the empty string, and the empty
   * guess upper-cases to it: the server counts it as correct.
   */
  lemma EmptyGuessMatchesUnsetWord()
    ensures IsCorrectAnswer("", "")
  {
  }

  /** One oracle answer for randomlyAssignNewTurnDetails. */
  datatype Draw = Draw(player: nat, word: nat)

  /** What Math.floor(Math.random() * n) guarantees: both indices in range. */
  predicate DrawInRange(d: Draw, playerCount: nat) {
    d.player < playerCount && d.word < |Words|
  }

  predicate DrawsInRange(draws: seq<Draw>, playerCount: nat) {
    forall k :: 0 <= k < |draws| ==> DrawInRange(draws[k], playerCount)
  }

  /** The loop of nextTurn stops after draw `d`: new drawer id AND new word. */
  predicate Accepts(ps: seq<Player>, lastId: string, lastWord: string, d: Draw)
    requires DrawInRange(d, |ps|)
  {
    ps[d.player].socketId != lastId && Words[d.word] != lastWord
  }

  /** Index of the first draw that stops the loop, if any. */
  function FirstAccepted(ps: seq<Player>, lastId: string, lastWord: string, draws: seq<Draw>): (r: Option<nat>)
    requires DrawsInRange(draws, |ps|)
    ensures r.Some? ==> r.value < |draws| && Accepts(ps, lastId, lastWord, draws[r.value])
    ensures r.Some? ==> forall k :: 0 <= k < r.value ==> !Accepts(ps, lastId, lastWord, draws[k])
    ensures r.None? <==> forall k :: 0 <= k < |draws| ==> !Accepts(ps, lastId, lastWord, draws[k])
  {
    if |draws| == 0 then None
    else if Accepts(ps, lastId, lastWord, draws[0]) then Some(0)
    else match FirstAccepted(ps, lastId, lastWord, draws[1..])
      case None => None
      case Some(k) => Some(k + 1)
  }

  /**
   * When every registered entry is the previous drawer (in particular a lone
   * drawer), no draw is ever accepted: the loop of nextTurn never stops.
   */
  lemma SoleDrawerNeverReplaced(ps: seq<Player>, lastId: string, lastWord: string, draws: seq<Draw>)
    requires DrawsInRange(draws, |ps|)
    requires forall j :: 0 <= j < |ps| ==> ps[j].socketId == lastId
    ensures FirstAccepted(ps, lastId, lastWord, draws) == None
  {
  }

  /**
   * As soon as some entry is not the previous drawer, an accepting draw
   * exists: with a random oracle the loop stops with probability one.
   */
  lemma ReplacementDrawExists(ps: seq<Player>, lastId: string, lastWord: string, j: nat)
    requires j < |ps| && ps[j].socketId != lastId
    ensures exists d :: DrawInRange(d, |ps|) && Accepts(ps, lastId, lastWord, d)
  {
    var w := if Words[0] != lastWord then 0 else 1;
    assert Accepts(ps, lastId, lastWord, Draw(j, w));
  }
}
