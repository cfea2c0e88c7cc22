/** The `GameStore` class of lib/gameStore.js: the same two fields and the same logic as the
    TypeScript copy, without `setAsker`, and with a `gradeAnswer` that accepts any number. */
module GameStoreJs {
  import opened Types
  import opened Lists
  import Store

  class GameStore {
    var state: GameState
    var players: seq<Store.Player>

    /** The two fields as one value. */
    ghost function View(): Store.Snapshot
      reads this
    {
      Store.Snapshot(players, state)
    }

    /** The store invariant; nothing constrains the scores, as any grade is accepted. */
    ghost predicate Valid()
      reads this
    {
      Store.Inv(View())
    }

    /** `new GameStore()`: `state` is a copy of `initialGameState`, `players` is empty. */
    constructor ()
      ensures Valid() && View() == Store.Initial
    {
      state := Store.InitialState;
      players := [];
    }

    /** `getState()`: the state part of the store, players left out. */
    function GetState(): (r: GameState)
      reads this
      ensures r == View().state
    {
      state
    }

    /** `players.find(p => p.id === id)`, as the index of the entry found. */
    method FindPlayer(id: string) returns (i: Option<nat>)
      ensures i == Store.IndexOfId(players, id)
    {
      var k := 0;
      while k < |players|
        invariant 0 <= k <= |players|
        invariant forall j :: 0 <= j < k ==> players[j].id != id
      {
        if players[k].id == id {
          Store.IndexOfFirst(players, id, k);
          return Some(k);
        }
        k := k + 1;
      }
      return None;
    }

    /** `updateOnlinePlayers()`. */
    method UpdateOnlinePlayers()
      modifies this
      ensures players == old(players)
      ensures state == old(state).(onlinePlayers := Store.Roster(players))
    {
      state := state.(onlinePlayers := Store.Roster(players));
    }

    /** `addPlayer(id, name)`. */
    method AddPlayer(id: string, name: string)
      requires Valid()
      modifies this
      ensures Valid() && View() == Store.AddPlayer(old(View()), id, name)
    {
      Store.InvAddPlayer(View(), id, name);
      var existing := FindPlayer(id);
      if existing.None? {
        players := players + [Store.Player(id, name, None)];
      }
      UpdateOnlinePlayers();
    }

    /** `removePlayer(id)`. */
    method RemovePlayer(id: string)
      requires Valid()
      modifies this
      ensures Valid() && View() == Store.RemovePlayer(old(View()), id)
    {
      Store.InvRemovePlayer(View(), id);
      players := Store.WithoutId(players, id);
      UpdateOnlinePlayers();
    }

    /** `joinTeam(socketId, teamId)`. */
    method JoinTeam(socketId: string, teamId: TeamId)
      requires Valid()
      modifies this
      ensures Valid() && View() == Store.JoinTeam(old(View()), socketId, teamId)
    {
      Store.InvJoinTeam(View(), socketId, teamId);
      var found := FindPlayer(socketId);
      if found.Some? {
        var i := found.value;
        var player := players[i];
        if player.teamId.Some? {
          var oldTeam := state.teams.Get(player.teamId.value);
          state := state.(teams := state.teams.Set(player.teamId.value,
                                                   oldTeam.(players := Without(oldTeam.players, player.name))));
        }
        players := players[i := player.(teamId := Some(teamId))];
        var newTeam := state.teams.Get(teamId);
        if player.name !in newTeam.players {
          state := state.(teams := state.teams.Set(teamId, newTeam.(players := newTeam.players + [player.name])));
        }
        UpdateOnlinePlayers();
      }
    }

    /** `startGame(team1Name, team2Name)`. */
    method StartGame(team1Name: string, team2Name: string)
      requires Valid()
      modifies this
      ensures Valid() && View() == Store.StartGame(old(View()), team1Name, team2Name)
    {
      Store.InvStartGame(View(), team1Name, team2Name);
      state := state.(teams := state.teams.(team1 := state.teams.team1.(name := team1Name)));
      state := state.(teams := state.teams.(team2 := state.teams.team2.(name := team2Name)));
      state := state.(section := Playing);
      state := state.(phase := Asking);
      state := state.(activeTeamId := Team1);
      state := state.(teams := state.teams.(team1 := state.teams.team1.(score := 0.0)));
      state := state.(teams := state.teams.(team2 := state.teams.team2.(score := 0.0)));
      state := state.(currentRound := 1);
    }

    /** `startAnswering(playerId)`. */
    method StartAnswering(playerId: string)
      requires Valid()
      modifies this
      ensures Valid() && View() == Store.StartAnswering(old(View()), playerId)
    {
      if state.phase != Asking {
        return;
      }
      var found := FindPlayer(playerId);
      if found.None? || players[found.value].teamId.None? {
        return;
      }
      if players[found.value].teamId.value != state.activeTeamId {
        return;
      }
      state := state.(phase := Answering);
    }

    /** `raiseHand(playerId)`. */
    method RaiseHand(playerId: string) returns (ok: bool)
      requires Valid()
      modifies this
      ensures Valid()
      ensures View() == Store.RaiseHand(old(View()), playerId).0
      ensures ok == Store.RaiseHand(old(View()), playerId).1
    {
      if state.phase != Answering {
        return false;
      }
      var found := FindPlayer(playerId);
      if found.None? || players[found.value].teamId.None? {
        return false;
      }
      if players[found.value].teamId.value == state.activeTeamId {
        return false;
      }
      state := state.(phase := Grading);
      return true;
    }

    /** `gradeAnswer(playerId, score)`, with any numeric `score`. */
    method GradeAnswer(playerId: string, score: real)
      requires Valid()
      modifies this
      ensures Valid() && View() == Store.GradeAnswer(old(View()), playerId, score)
    {
      Store.InvGradeAnswer(View(), playerId, score);
      if state.phase != Grading {
        return;
      }
      var found := FindPlayer(playerId);
      if found.None? || players[found.value].teamId.None? {
        return;
      }
      if players[found.value].teamId.value != state.activeTeamId {
        return;
      }
      var askingTeam := state.activeTeamId;
      var answeringTeam := if askingTeam == Team1 then Team2 else Team1;
      var team := state.teams.Get(answeringTeam);
      state := state.(teams := state.teams.Set(answeringTeam, team.(score := team.score + score)));
      state := state.(activeTeamId := answeringTeam);
      state := state.(phase := Asking);
      state := state.(currentRound := state.currentRound + 1);
    }

    /** `reset()`: `state` is a shallow copy of `initialGameState`, whose `teams` object is
        the one every earlier call changed, so the teams are kept. */
    method Reset()
      requires Valid()
      modifies this
      ensures Valid() && View() == Store.Reset(old(View()))
    {
      state := Store.InitialState.(teams := state.teams);
      players := [];
    }
  }
}
