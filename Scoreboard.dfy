/**
 * The client's scoreboard (renderScoreboard, clearScoreboard,
 * populateScoreboard, appendNewPlayer in script.js). The table element is its
 * list of child rows; the first child is the header row of the page markup.
 */
module Scoreboard {
  import opened Protocol

  datatype Row = HeaderRow | PlayerRow(rank: int, name: string, points: nat)

  /** Non-increasing points from front to back. */
  predicate ByPointsDescending(s: seq<Player>) {
    forall i, j :: 0 <= i < j < |s| ==> s[i].points >= s[j].points
  }

  /** The rows appendNewPlayer adds for `ps` when the rank counter starts at `firstRank`. */
  function RankedRows(ps: seq<Player>, firstRank: int): (r: seq<Row>)
    ensures |r| == |ps|
    ensures forall k :: 0 <= k < |ps| ==> r[k] == PlayerRow(firstRank + k, ps[k].name, ps[k].points)
  {
    if |ps| == 0 then []
    else RankedRows(ps[..|ps| - 1], firstRank) + [PlayerRow(firstRank + |ps| - 1, ps[|ps| - 1].name, ps[|ps| - 1].points)]
  }

  /**
   * Rows built from data sorted by points show ranks 1, 2, ..., n with
   * non-increasing points: a higher rank never shows more points.
   */
  lemma RanksContiguousAndOrdered(ps: seq<Player>)
    requires ByPointsDescending(ps)
    ensures forall k :: 0 <= k < |ps| ==> RankedRows(ps, 1)[k].rank == k + 1
    ensures forall i, j :: 0 <= i < j < |ps| ==> RankedRows(ps, 1)[i].points >= RankedRows(ps, 1)[j].points
  {
  }

  /** Exchange two neighbouring entries. */
  method SwapWithPrevious(a: array<Player>, j: nat)
    requires 0 < j < a.Length
    modifies a
    ensures a[j - 1] == old(a[j]) && a[j] == old(a[j - 1])
    ensures forall m :: 0 <= m < a.Length && m != j - 1 && m != j ==> a[m] == old(a[m])
    ensures multiset(a[..]) == old(multiset(a[..]))
  {
    a[j - 1], a[j] := a[j], a[j - 1];
  }

  /**
   * One pass of the insertion: with a[..i] sorted, move a[i] towards the
   * front past every entry with fewer points, so that a[..i + 1] is sorted.
   */
  method InsertByPoints(a: array<Player>, i: nat)
    requires i < a.Length
    requires ByPointsDescending(a[..i])
    modifies a
    ensures ByPointsDescending(a[..i + 1])
    ensures forall m :: i < m < a.Length ==> a[m] == old(a[m])
    ensures multiset(a[..]) == old(multiset(a[..]))
  {
    var j := i;
    while j > 0 && a[j - 1].points < a[j].points
      invariant 0 <= j <= i
      invariant forall x, y :: 0 <= x < y <= i && y != j ==> a[x].points >= a[y].points
      invariant forall m :: i < m < a.Length ==> a[m] == old(a[m])
      invariant multiset(a[..]) == old(multiset(a[..]))
    {
      SwapWithPrevious(a, j);
      j := j - 1;
    }
  }

  /**
   * scoreboardData.sort((p1, p2) => p2.points - p1.points), in place: the
   * array ends sorted by non-increasing points and holds the same entries.
   */
  method SortByPoints(a: array<Player>)
    modifies a
    ensures ByPointsDescending(a[..])
    ensures multiset(a[..]) == old(multiset(a[..]))
  {
    var i := 0;
    while i < a.Length
      invariant 0 <= i <= a.Length
      invariant ByPointsDescending(a[..i])
      invariant multiset(a[..]) == old(multiset(a[..]))
    {
      InsertByPoints(a, i);
      i := i + 1;
    }
    assert a[..i] == a[..];
  }

  class ScoreboardTable {
    /** The children of the scoreboard table element. */
    var rows: seq<Row>
    /** The global rankCounter. */
    var rankCounter: int

    /** A table that holds only its header row. */
    constructor ()
      ensures rows == [HeaderRow] && rankCounter == 1
    {
      rows, rankCounter := [HeaderRow], 1;
    }

    /** clearScoreboard: remove the last child childElementCount - 1 times, leaving the first child. */
    method ClearScoreboard()
      modifies this`rows
      ensures rows == if |old(rows)| == 0 then [] else old(rows)[..1]
    {
      var numberOfRows := |rows| - 1;
      var i := 0;
      while i < numberOfRows
        invariant 0 <= i && (numberOfRows < 0 || i <= numberOfRows)
        invariant |rows| == |old(rows)| - i
        invariant rows == old(rows)[..|old(rows)| - i]
      {
        rows := rows[..|rows| - 1];
        i := i + 1;
      }
    }

    /** appendNewPlayer: one row with the current rank counter, the name and the points. */
    method AppendNewPlayer(data: Player)
      modifies this`rows
      ensures rows == old(rows) + [PlayerRow(rankCounter, data.name, data.points)]
    {
      rows := rows + [PlayerRow(rankCounter, data.name, data.points)];
    }

    /**
     * populateScoreboard: sort the data in place, then append one row per
     * entry in sorted order with ranks counted from 1.
     */
    method PopulateScoreboard(data: array<Player>)
      modifies this, data
      ensures ByPointsDescending(data[..])
      ensures multiset(data[..]) == old(multiset(data[..]))
      ensures rows == old(rows) + RankedRows(data[..], 1)
      ensures rankCounter == data.Length + 1
    {
      SortByPoints(data);
      rankCounter := 1;
      var i := 0;
      while i < data.Length
        invariant 0 <= i <= data.Length
        invariant rankCounter == i + 1
        invariant rows == old(rows) + RankedRows(data[..i], 1)
        invariant ByPointsDescending(data[..]) && multiset(data[..]) == old(multiset(data[..]))
        modifies this
      {
        AppendNewPlayer(data[i]);
        rankCounter := rankCounter + 1;
        assert data[..i + 1][..i] == data[..i];
        i := i + 1;
      }
      assert data[..i] == data[..];
    }

    /** renderScoreboard, the players-data handler: clear, then populate. */
    method RenderScoreboard(data: array<Player>)
      modifies this, data
      ensures ByPointsDescending(data[..])
      ensures multiset(data[..]) == old(multiset(data[..]))
      ensures rows == (if |old(rows)| == 0 then [] else old(rows)[..1]) + RankedRows(data[..], 1)
    {
      ClearScoreboard();
      PopulateScoreboard(data);
    }
  }
}
