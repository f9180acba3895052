/**
 * The server's player registry helpers (add5Points, deletePlayer,
 * getNameById in server.js), as specification functions over the ordered
 * `players` array. Each helper scans from the front and acts on the FIRST
 * entry whose socket id matches; socket ids are not assumed unique.
 */
module Players {
  import opened Protocol

  /** Index of the first entry with socket id `id`, if there is one. */
  function FirstIndex(ps: seq<Player>, id: string): (r: Option<nat>)
    ensures r.Some? ==> r.value < |ps| && ps[r.value].socketId == id
    ensures r.Some? ==> forall j :: 0 <= j < r.value ==> ps[j].socketId != id
    ensures r.None? <==> forall j :: 0 <= j < |ps| ==> ps[j].socketId != id
  {
    if |ps| == 0 then None
    else if ps[0].socketId == id then Some(0)
    else match FirstIndex(ps[1..], id)
      case None => None
      case Some(k) => Some(k + 1)
  }

  /** True when some entry carries socket id `id`. */
  predicate Registered(ps: seq<Player>, id: string) {
    exists j :: 0 <= j < |ps| && ps[j].socketId == id
  }

  /** getNameById: the name of the first entry with that id; None stands for `undefined`. */
  function NameOf(ps: seq<Player>, id: string): (r: Option<string>)
    ensures r.None? <==> !Registered(ps, id)
    ensures r.Some? ==> exists j :: 0 <= j < |ps| && ps[j].socketId == id && ps[j].name == r.value
                                    && forall k :: 0 <= k < j ==> ps[k].socketId != id
  {
    match FirstIndex(ps, id)
    case None => None
    case Some(i) => Some(ps[i].name)
  }

  /**
   * The registry after add5Points(id): same length and order, the first
   * matching entry's points raised by exactly 5 (name and id untouched), every
   * other entry, including later entries with the same id, as it was.
   */
  function WithFivePoints(ps: seq<Player>, id: string): (r: seq<Player>)
    ensures |r| == |ps|
    ensures !Registered(ps, id) ==> r == ps
    ensures forall j :: 0 <= j < |ps| && FirstIndex(ps, id) != Some(j) ==> r[j] == ps[j]
    ensures FirstIndex(ps, id).Some? ==>
      var i := FirstIndex(ps, id).value;
      r[i] == Player(ps[i].socketId, ps[i].name, ps[i].points + 5)
  {
    match FirstIndex(ps, id)
    case None => ps
    case Some(i) => ps[i := ps[i].(points := ps[i].points + 5)]
  }

  /**
   * The registry after deletePlayer(id): the first matching entry is gone and
   * the entries before and after it stay, in order; an absent id is a no-op.
   */
  function WithoutPlayer(ps: seq<Player>, id: string): (r: seq<Player>)
    ensures !Registered(ps, id) ==> r == ps
    ensures Registered(ps, id) ==> |r| == |ps| - 1
    ensures FirstIndex(ps, id).Some? ==>
      var i := FirstIndex(ps, id).value;
      && (forall j :: 0 <= j < i ==> r[j] == ps[j])
      && (forall j :: i < j < |ps| ==> r[j - 1] == ps[j])
  {
    match FirstIndex(ps, id)
    case None => ps
    case Some(i) => ps[..i] + ps[i + 1..]
  }

  /** Sum of all scores. */
  function TotalPoints(ps: seq<Player>): nat {
    if |ps| == 0 then 0 else ps[0].points + TotalPoints(ps[1..])
  }

  /** Number of entries carrying socket id `id`. */
  function CountId(ps: seq<Player>, id: string): nat {
    if |ps| == 0 then 0 else (if ps[0].socketId == id then 1 else 0) + CountId(ps[1..], id)
  }

  /** Every entry whose id differs from the scorer's keeps its score. */
  lemma AwardLeavesOtherPlayers(ps: seq<Player>, id: string, j: nat)
    requires j < |ps| && ps[j].socketId != id
    ensures j < |WithFivePoints(ps, id)| && WithFivePoints(ps, id)[j] == ps[j]
  {
  }

  /** The total score rises by exactly 5 when the id is registered and not at all otherwise. */
  lemma {:induction false} AwardAddsExactlyFive(ps: seq<Player>, id: string)
    ensures TotalPoints(WithFivePoints(ps, id)) == TotalPoints(ps) + (if Registered(ps, id) then 5 else 0)
  {
    if |ps| == 0 {
      return;
    }
    var tail := ps[1..];
    var r := WithFivePoints(ps, id);
    if ps[0].socketId == id {
      assert FirstIndex(ps, id) == Some(0);
      assert r[1..] == tail;
      assert Registered(ps, id);
    } else {
      AwardAddsExactlyFive(tail, id);
      RegisteredPastHead(ps, id);
      match FirstIndex(tail, id)
      case None =>
        assert FirstIndex(ps, id) == None;
        assert r == ps;
      case Some(k) =>
        assert FirstIndex(ps, id) == Some(k + 1);
        assert r[1..] == WithFivePoints(tail, id);
    }
  }

  /** An entry that does not match leaves the question to the rest of the registry. */
  lemma RegisteredPastHead(ps: seq<Player>, id: string)
    requires |ps| > 0 && ps[0].socketId != id
    ensures Registered(ps, id) == Registered(ps[1..], id)
  {
    if Registered(ps, id) {
      var j :| 0 <= j < |ps| && ps[j].socketId == id;
      assert ps[1..][j - 1].socketId == id;
    }
    if Registered(ps[1..], id) {
      var j :| 0 <= j < |ps[1..]| && ps[1..][j].socketId == id;
      assert ps[j + 1].socketId == id;
    }
  }

  /** Deleting never adds an entry, and every entry with another id survives. */
  lemma DeleteKeepsOthers(ps: seq<Player>, id: string)
    ensures multiset(WithoutPlayer(ps, id)) <= multiset(ps)
    ensures forall p :: p in ps && p.socketId != id ==> p in WithoutPlayer(ps, id)
  {
    match FirstIndex(ps, id)
    case None =>
    case Some(i) =>
      assert ps == ps[..i] + [ps[i]] + ps[i + 1..];
      forall p | p in ps && p.socketId != id
        ensures p in WithoutPlayer(ps, id)
      {
        var j :| 0 <= j < |ps| && ps[j] == p;
        if j < i {
          assert WithoutPlayer(ps, id)[j] == p;
        } else {
          assert WithoutPlayer(ps, id)[j - 1] == p;
        }
      }
  }

  /** Only one entry goes: a second entry with the same id survives the deletion. */
  lemma {:induction false} DeleteRemovesOneEntry(ps: seq<Player>, id: string)
    ensures CountId(WithoutPlayer(ps, id), id) == if CountId(ps, id) == 0 then 0 else CountId(ps, id) - 1
  {
    match FirstIndex(ps, id)
    case None =>
      CountIdAbsent(ps, id);
    case Some(i) =>
      var before, after := ps[..i], ps[i + 1..];
      assert ps == before + ([ps[i]] + after);
      CountIdAppend(before, [ps[i]] + after, id);
      CountIdAppend([ps[i]], after, id);
      CountIdAppend(before, after, id);
      CountIdAbsent(before, id);
      assert CountId([ps[i]], id) == 1;
  }

  lemma {:induction false} CountIdAppend(a: seq<Player>, b: seq<Player>, id: string)
    ensures CountId(a + b, id) == CountId(a, id) + CountId(b, id)
  {
    if |a| > 0 {
      CountIdAppend(a[1..], b, id);
      assert (a + b)[1..] == a[1..] + b;
    } else {
      assert a + b == b;
    }
  }

  lemma {:induction false} CountIdAbsent(a: seq<Player>, id: string)
    requires forall j :: 0 <= j < |a| ==> a[j].socketId != id
    ensures CountId(a, id) == 0
  {
    if |a| > 0 {
      CountIdAbsent(a[1..], id);
    }
  }
}
