/**
 * The player roster of the Wavelength game: an ordered list of players held by
 * a store object. Players are addressed by their position in the list; every
 * operation replaces the whole list with a new one computed from the old, and
 * an index outside the list changes nothing.
 */
module Roster {

  /** A player record; `id` is a placeholder that the store always sets to 0. */
  datatype Player = Player(id: int, name: string, score: int)

  function Max(a: int, b: int): (m: int)
    ensures m >= a && m >= b && (m == a || m == b)
  {
    if a >= b then a else b
  }

  /** The invariant the game relies on: no player has a negative score. */
  predicate ScoresNonNegative(players: seq<Player>): (b: bool)
    ensures b <==> forall p :: p in players ==> p.score >= 0
  {
    forall i :: 0 <= i < |players| ==> players[i].score >= 0
  }

  /** The roster after `addPlayer(name)`: a fresh player with score 0 at the end. */
  function WithNewPlayer(players: seq<Player>, name: string): (r: seq<Player>)
    ensures |r| == |players| + 1
    ensures r[..|players|] == players
    ensures r[|players|] == Player(0, name, 0)
  {
    players + [Player(0, name, 0)]
  }

  /**
   * Keeps the players whose position is not `index`, where the first element
   * of `players` sits at position `from`: the filter of `removePlayer`.
   */
  function KeepOtherPositions(players: seq<Player>, index: int, from: int): (r: seq<Player>)
    ensures |r| == |players| - (if from <= index < from + |players| then 1 else 0)
  {
    if players == [] then []
    else (if from == index then [] else [players[0]])
         + KeepOtherPositions(players[1..], index, from + 1)
  }

  /** The filter drops exactly the element at position `index`, if there is one. */
  lemma {:induction false} KeepOtherPositionsDropsOne(players: seq<Player>, index: int, from: int)
    ensures var r := KeepOtherPositions(players, index, from);
            if from <= index < from + |players|
            then r == players[..index - from] + players[index - from + 1..]
            else r == players
  {
    if players != [] {
      KeepOtherPositionsDropsOne(players[1..], index, from + 1);
      if from < index < from + |players| {
        assert players[..index - from] == [players[0]] + players[1..][..index - from - 1];
        assert players[index - from + 1..] == players[1..][index - from..];
      }
    }
  }

  /**
   * The roster after `removePlayer(index)`: a valid index removes that one
   * player and keeps the others in order; any other index leaves the roster
   * as it was.
   */
  function WithoutPlayer(players: seq<Player>, index: int): (r: seq<Player>)
    ensures 0 <= index < |players| ==> r == players[..index] + players[index + 1..]
    ensures 0 <= index < |players| ==> |r| == |players| - 1
    ensures !(0 <= index < |players|) ==> r == players
  {
    KeepOtherPositionsDropsOne(players, index, 0);
    KeepOtherPositions(players, index, 0)
  }

  /** A player with `delta` added to the score, clamped at zero. */
  function Rescored(p: Player, delta: int): (q: Player)
    ensures q.id == p.id && q.name == p.name
    ensures q.score >= 0 && q.score >= p.score + delta
    ensures q.score == 0 || q.score == p.score + delta
  {
    p.(score := Max(0, p.score + delta))
  }

  /** The roster after `updatePlayerScore(index, delta)`: the map over positions. */
  function WithScoreChange(players: seq<Player>, index: int, delta: int): (r: seq<Player>)
    ensures |r| == |players|
    ensures forall i :: 0 <= i < |players| && i != index ==> r[i] == players[i]
    ensures 0 <= index < |players| ==> r[index] == Rescored(players[index], delta)
  {
    seq(|players|, i requires 0 <= i < |players| =>
      if i == index then Rescored(players[i], delta) else players[i])
  }

  /**
   * updatePlayerScore: a valid index replaces that one player by its rescored
   * copy in place; any other index leaves the roster as it was.
   */
  lemma UpdateSpec(players: seq<Player>, index: int, delta: int)
    ensures 0 <= index < |players| ==>
              (WithScoreChange(players, index, delta)
               == players[..index] + [Rescored(players[index], delta)] + players[index + 1..])
    ensures !(0 <= index < |players|) ==> WithScoreChange(players, index, delta) == players
  {
  }

  lemma AddKeepsScoresNonNegative(players: seq<Player>, name: string)
    requires ScoresNonNegative(players)
    ensures ScoresNonNegative(WithNewPlayer(players, name))
  {
  }

  lemma RemoveKeepsScoresNonNegative(players: seq<Player>, index: int)
    requires ScoresNonNegative(players)
    ensures ScoresNonNegative(WithoutPlayer(players, index))
  {
  }

  /** The rescored player is clamped at zero and every other player is left as it was. */
  lemma UpdateKeepsScoresNonNegative(players: seq<Player>, index: int, delta: int)
    requires ScoresNonNegative(players)
    ensures ScoresNonNegative(WithScoreChange(players, index, delta))
  {
  }

  /**
   * The roster store. Each method reads the current list, computes the next
   * one and installs it as the new state; subscribers are not modelled.
   */
  class GameStore {
    var players: seq<Player>

    constructor ()
      ensures players == []
    {
      players := [];
    }

    /** setPlayers: replaces the whole roster, with no merge. */
    method SetPlayers(ps: seq<Player>)
      modifies this
      ensures players == ps
    {
      players := ps;
    }

    method AddPlayer(name: string)
      modifies this
      ensures players == WithNewPlayer(old(players), name)
      ensures ScoresNonNegative(old(players)) ==> ScoresNonNegative(players)
    {
      if ScoresNonNegative(players) {
        AddKeepsScoresNonNegative(players, name);
      }
      players := WithNewPlayer(players, name);
    }

    method RemovePlayer(index: int)
      modifies this
      ensures players == WithoutPlayer(old(players), index)
      ensures ScoresNonNegative(old(players)) ==> ScoresNonNegative(players)
    {
      if ScoresNonNegative(players) {
        RemoveKeepsScoresNonNegative(players, index);
      }
      players := WithoutPlayer(players, index);
    }

    method UpdatePlayerScore(index: int, delta: int)
      modifies this
      ensures players == WithScoreChange(old(players), index, delta)
      ensures ScoresNonNegative(old(players)) ==> ScoresNonNegative(players)
    {
      players := WithScoreChange(players, index, delta);
    }

    /** reset: back to the empty roster, whatever came before. */
    method Reset()
      modifies this
      ensures players == []
    {
      players := [];
    }
  }

  /**
   * setPlayers installs any list as given: a store whose roster has no
   * negative score before the call holds one after it.
   */
  method SetPlayersMayBreakScoresNonNegative() returns (before: bool, after: bool)
    ensures before && !after
  {
    var store := new GameStore();
    before := ScoresNonNegative(store.players);
    store.SetPlayers([Player(0, "Ana", -1)]);
    assert store.players[0].score < 0;
    after := ScoresNonNegative(store.players);
  }

  /**
   * A short session as a client of the store sees it: the roster after
   * adding a player, after a clamped score change, after removing at an
   * index past the end, and after a reset.
   */
  method Session() returns (added: seq<Player>, rescored: seq<Player>,
                            removed: seq<Player>, cleared: seq<Player>)
    ensures added == [Player(0, "Ana", 0)]
    ensures rescored == [Player(0, "Ana", 0), Player(0, "Ben", 2)]
    ensures removed == rescored
    ensures cleared == []
  {
    var store := new GameStore();
    store.AddPlayer("Ana");
    added := store.players;
    store.SetPlayers([Player(0, "Ana", 5), Player(0, "Ben", 2)]);
    store.UpdatePlayerScore(0, -10);
    assert store.players[0] == Player(0, "Ana", 0);
    rescored := store.players;
    store.RemovePlayer(5);
    removed := store.players;
    store.Reset();
    cleared := store.players;
  }
}
