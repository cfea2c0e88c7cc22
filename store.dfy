/** The game store as values: its two fields (`players` and `state`) and one function per
    operation, giving the state after the call in terms of the state before it. Both copies of
    the store (lib/gameStore.ts, lib/gameStore.js) are proved to follow these functions; the
    lemmas here state what the store promises about them. */
module Store {
  import opened Types
  import opened Lists

  /** An entry of the private `players` list: `{ id, name, teamId? }`. */
  datatype Player = Player(id: string, name: string, teamId: Option<TeamId>)

  /** The store's two fields. */
  datatype Snapshot = Snapshot(players: seq<Player>, state: GameState)

  /** `initialGameState.teams`. */
  const InitialTeams: Teams :=
    Teams(Team(Team1, "Team 1", 0.0, []), Team(Team2, "Team 2", 0.0, []))

  /** `initialGameState`. */
  const InitialState: GameState := GameState(Setup, InitialTeams, 1, Team1, Asking, [])

  /** A freshly constructed store. */
  const Initial: Snapshot := Snapshot([], InitialState)

  // ---------------------------------------------------------------------------
  // The players list: `find`, `filter` and `map` by id
  // ---------------------------------------------------------------------------

  /** Some entry of `ps` carries `id`. */
  predicate Known(ps: seq<Player>, id: string) {
    exists j :: 0 <= j < |ps| && ps[j].id == id
  }

  /** The index `players.find(p => p.id === id)` returns: the first entry with that id. */
  function IndexOfId(ps: seq<Player>, id: string): (r: Option<nat>)
    ensures r.Some? ==> r.value < |ps| && ps[r.value].id == id
    ensures r.Some? ==> forall j :: 0 <= j < r.value ==> ps[j].id != id
    ensures r.None? <==> !Known(ps, id)
  {
    if ps == [] then None
    else if ps[0].id == id then Some(0)
    else match IndexOfId(ps[1..], id)
      case None => None
      case Some(k) => Some(k + 1)
  }

  /** The first entry with `id` is the one `IndexOfId` finds. */
  lemma IndexOfFirst(ps: seq<Player>, id: string, k: nat)
    requires k < |ps| && ps[k].id == id
    requires forall j :: 0 <= j < k ==> ps[j].id != id
    ensures IndexOfId(ps, id) == Some(k)
  {
    assert Known(ps, id);
  }

  /** The team of the player found for `id`, if it is found and has one. */
  function ActorTeam(ps: seq<Player>, id: string): Option<TeamId> {
    match IndexOfId(ps, id)
    case None => None
    case Some(i) => ps[i].teamId
  }

  /** `players.filter(p => p.id !== id)`. */
  function WithoutId(ps: seq<Player>, id: string): (r: seq<Player>)
    ensures forall p :: p in r <==> p in ps && p.id != id
    ensures |r| <= |ps|
  {
    if ps == [] then [] else (if ps[0].id == id then [] else [ps[0]]) + WithoutId(ps[1..], id)
  }

  /** `players.map(p => ({ name: p.name, teamId: p.teamId }))`. */
  function Roster(ps: seq<Player>): (r: seq<OnlinePlayer>)
    ensures |r| == |ps|
    ensures forall i :: 0 <= i < |ps| ==> r[i] == OnlinePlayer(ps[i].name, ps[i].teamId)
  {
    if ps == [] then [] else [OnlinePlayer(ps[0].name, ps[0].teamId)] + Roster(ps[1..])
  }

  /** No two entries share an id. */
  predicate UniqueIds(ps: seq<Player>) {
    forall i, j :: 0 <= i < j < |ps| ==> ps[i].id != ps[j].id
  }

  // ---------------------------------------------------------------------------
  // The invariant every operation keeps
  // ---------------------------------------------------------------------------

  /** What holds of the store from construction on: ids are unique (addPlayer refuses a known
      id), the round is at least 1, the unused `'gameover'` section and `'setup'` phase never
      occur, each team keeps its id, no member list holds a name twice, and `onlinePlayers`
      mirrors `players`. */
  predicate Inv(s: Snapshot) {
    && UniqueIds(s.players)
    && s.state.currentRound >= 1
    && s.state.section != GameOver
    && s.state.phase != SetupPhase
    && TeamsValid(s.state.teams)
    && s.state.onlinePlayers == Roster(s.players)
  }

  /** Each team keeps its id and no member list holds a name twice. */
  predicate TeamsValid(teams: Teams) {
    && teams.team1.id == Team1
    && teams.team2.id == Team2
    && NoDup(teams.team1.players)
    && NoDup(teams.team2.players)
  }

  /** A non-negative whole number of half points. */
  predicate HalfPoints(x: real) {
    0.0 <= x && (2.0 * x).Floor as real == 2.0 * x
  }

  /** Both scores are sums of grades `0`, `0.5` and `1`. */
  predicate ScoresValid(s: Snapshot) {
    HalfPoints(s.state.teams.team1.score) && HalfPoints(s.state.teams.team2.score)
  }

  // ---------------------------------------------------------------------------
  // The operations
  // ---------------------------------------------------------------------------

  /** `updateOnlinePlayers`: the roster is rebuilt from the players and nothing else in the
      state changes. */
  function WithRoster(state: GameState, ps: seq<Player>): (r: GameState)
    ensures |r.onlinePlayers| == |ps|
    ensures forall k :: 0 <= k < |ps| ==> r.onlinePlayers[k] == OnlinePlayer(ps[k].name, ps[k].teamId)
    ensures r.(onlinePlayers := state.onlinePlayers) == state
  {
    state.(onlinePlayers := Roster(ps))
  }

  /** `addPlayer(id, name)`: an unseen id is appended without a team; a known id leaves
      `players` alone; the roster is recomputed either way. */
  function AddPlayer(s: Snapshot, id: string, name: string): (r: Snapshot)
    ensures !Known(s.players, id) ==> r.players == s.players + [Player(id, name, None)]
    ensures Known(s.players, id) ==> r.players == s.players
    ensures Known(r.players, id)
    ensures r.state.onlinePlayers == Roster(r.players)
    ensures r.state.(onlinePlayers := s.state.onlinePlayers) == s.state
  {
    var ps := if IndexOfId(s.players, id).None? then s.players + [Player(id, name, None)] else s.players;
    assert Known(ps, id) by {
      if IndexOfId(s.players, id).None? { assert ps[|s.players|].id == id; }
    }
    Snapshot(ps, WithRoster(s.state, ps))
  }

  /** `removePlayer(id)`: every entry with that id goes, the others stay; team member
      lists, scores, phase and round are not touched. */
  function RemovePlayer(s: Snapshot, id: string): (r: Snapshot)
    ensures forall p :: p in r.players <==> p in s.players && p.id != id
    ensures !Known(r.players, id)
    ensures r.state.onlinePlayers == Roster(r.players)
    ensures r.state.(onlinePlayers := s.state.onlinePlayers) == s.state
  {
    var ps := WithoutId(s.players, id);
    assert !Known(ps, id) by {
      forall j | 0 <= j < |ps| ensures ps[j].id != id {
        assert ps[j] in ps;
      }
    }
    Snapshot(ps, WithRoster(s.state, ps))
  }

  /** `joinTeam(id, t)`: an unknown id changes nothing; otherwise only the player's `teamId`
      becomes `t`, its name moves to team `t` as `MoveName` says, and the roster is recomputed;
      section, phase, round and asking team are kept. */
  function JoinTeam(s: Snapshot, id: string, t: TeamId): (r: Snapshot)
    ensures !Known(s.players, id) ==> r == s
    ensures Known(s.players, id) ==>
      var i := IndexOfId(s.players, id).value;
      var p := s.players[i];
      && r.players == s.players[i := p.(teamId := Some(t))]
      && r.state == s.state.(teams := MoveName(s.state.teams, p.teamId, t, p.name),
                             onlinePlayers := Roster(r.players))
  {
    match IndexOfId(s.players, id)
    case None => s
    case Some(i) =>
      var p := s.players[i];
      var ps := s.players[i := p.(teamId := Some(t))];
      Snapshot(ps, WithRoster(s.state.(teams := MoveName(s.state.teams, p.teamId, t, p.name)), ps))
  }

  /** The teams after a player called `name` moves from team `from` (if any) to team `t`:
      the name is filtered out of `from`'s list, then pushed onto `t`'s list unless it is
      already there. The name ends up on `t`'s list and off `from`'s list when the teams
      differ, the other team is untouched unless the player came from it, and no team
      changes its id, name or score. */
  function MoveName(teams: Teams, from: Option<TeamId>, t: TeamId, name: string): (r: Teams)
    ensures name in r.Get(t).players
    ensures from.Some? && from.value != t ==> name !in r.Get(from.value).players
    ensures from != Some(Other(t)) ==> r.Get(Other(t)) == teams.Get(Other(t))
    ensures forall x :: r.Get(x).(players := teams.Get(x).players) == teams.Get(x)
  {
    var left := if from.Some? then LeaveTeam(teams, from.value, name) else teams;
    var newTeam := left.Get(t);
    if name in newTeam.players then left
    else left.Set(t, newTeam.(players := newTeam.players + [name]))
  }

  /** The teams after `name` is filtered out of team `t`'s list. */
  function LeaveTeam(teams: Teams, t: TeamId, name: string): (r: Teams)
    ensures name !in r.Get(t).players
    ensures r.Get(t).players == Without(teams.Get(t).players, name)
    ensures r.Get(Other(t)) == teams.Get(Other(t))
    ensures r.Get(t).(players := teams.Get(t).players) == teams.Get(t)
  {
    var team := teams.Get(t);
    teams.Set(t, team.(players := Without(team.players, name)))
  }

  /** `startGame(n1, n2)`: whatever the state before, the teams get the new names and score 0,
      the section is playing, the phase asking, team1 asks and the round is 1; the member
      lists, the players and the roster are kept. */
  function StartGame(s: Snapshot, n1: string, n2: string): (r: Snapshot)
    ensures r.players == s.players
    ensures r.state.teams.team1 == s.state.teams.team1.(name := n1, score := 0.0)
    ensures r.state.teams.team2 == s.state.teams.team2.(name := n2, score := 0.0)
    ensures r.state.section == Playing && r.state.phase == Asking
    ensures r.state.activeTeamId == Team1 && r.state.currentRound == 1
    ensures r.state.onlinePlayers == s.state.onlinePlayers
  {
    var teams := Teams(s.state.teams.team1.(name := n1, score := 0.0),
                       s.state.teams.team2.(name := n2, score := 0.0));
    s.(state := s.state.(teams := teams, section := Playing, phase := Asking,
                         activeTeamId := Team1, currentRound := 1))
  }

  /** `startAnswering(id)`: asking becomes answering exactly when the actor is found, has a
      team and that team is the asking one; otherwise nothing changes. */
  function StartAnswering(s: Snapshot, id: string): (r: Snapshot)
    ensures s.state.phase == Asking && ActorTeam(s.players, id) == Some(s.state.activeTeamId) ==>
      r == s.(state := s.state.(phase := Answering))
    ensures !(s.state.phase == Asking && ActorTeam(s.players, id) == Some(s.state.activeTeamId)) ==>
      r == s
  {
    if s.state.phase != Asking then s
    else match IndexOfId(s.players, id)
      case None => s
      case Some(i) =>
        if s.players[i].teamId.None? then s
        else if s.players[i].teamId.value != s.state.activeTeamId then s
        else s.(state := s.state.(phase := Answering))
  }

  /** `setAsker(id)` (TypeScript copy only): any known player moves the phase to answering,
      with no check of the phase or of the player's team. */
  function SetAsker(s: Snapshot, id: string): (r: Snapshot)
    ensures Known(s.players, id) ==> r == s.(state := s.state.(phase := Answering))
    ensures !Known(s.players, id) ==> r == s
  {
    match IndexOfId(s.players, id)
    case None => s
    case Some(_) => s.(state := s.state.(phase := Answering))
  }

  /** The guard of `raiseHand(id)`: the phase is answering and the actor is on a team other
      than the asking one. */
  predicate CanRaiseHand(s: Snapshot, id: string) {
    s.state.phase == Answering && ActorTeam(s.players, id).Some?
    && ActorTeam(s.players, id).value != s.state.activeTeamId
  }

  /** `raiseHand(id)`: true, with the phase moved to grading, exactly when the guard holds;
      otherwise false and nothing changes. */
  function RaiseHand(s: Snapshot, id: string): (r: (Snapshot, bool))
    ensures r.1 <==> CanRaiseHand(s, id)
    ensures r.1 ==> r.0 == s.(state := s.state.(phase := Grading))
    ensures !r.1 ==> r.0 == s
  {
    if s.state.phase != Answering then (s, false)
    else match IndexOfId(s.players, id)
      case None => (s, false)
      case Some(i) =>
        if s.players[i].teamId.None? then (s, false)
        else if s.players[i].teamId.value == s.state.activeTeamId then (s, false)
        else (s.(state := s.state.(phase := Grading)), true)
  }

  /** The guard of `gradeAnswer(id, points)`: the phase is grading and the actor is on the
      asking team. */
  predicate CanGrade(s: Snapshot, id: string) {
    s.state.phase == Grading && ActorTeam(s.players, id) == Some(s.state.activeTeamId)
  }

  /** `gradeAnswer(id, points)`: when the guard holds, the answering team (the one not asking)
      gains `points`, the asking team is untouched, the answering team asks next, the phase
      returns to asking and the round goes up by one; otherwise nothing changes. */
  function GradeAnswer(s: Snapshot, id: string, points: real): (r: Snapshot)
    ensures CanGrade(s, id) ==>
      var asking := s.state.activeTeamId;
      var answering := Other(asking);
      && r.state.teams.Get(answering) == s.state.teams.Get(answering).(score := s.state.teams.Get(answering).score + points)
      && r.state.teams.Get(asking) == s.state.teams.Get(asking)
      && r.state.activeTeamId == answering
      && r.state.phase == Asking
      && r.state.currentRound == s.state.currentRound + 1
      && r.players == s.players
      && r.state.section == s.state.section
      && r.state.onlinePlayers == s.state.onlinePlayers
    ensures !CanGrade(s, id) ==> r == s
  {
    if s.state.phase != Grading then s
    else match IndexOfId(s.players, id)
      case None => s
      case Some(i) =>
        if s.players[i].teamId.None? then s
        else if s.players[i].teamId.value != s.state.activeTeamId then s
        else
          var askingTeam := s.state.activeTeamId;
          var answeringTeam := if askingTeam == Team1 then Team2 else Team1;
          var team := s.state.teams.Get(answeringTeam);
          s.(state := s.state.(teams := s.state.teams.Set(answeringTeam, team.(score := team.score + points)),
                               activeTeamId := answeringTeam, phase := Asking,
                               currentRound := s.state.currentRound + 1))
  }

  /** `reset()`: `state` becomes a shallow copy of `initialGameState` and `players` is emptied.
      The copy shares `initialGameState.teams`, the very object that `startGame`, `joinTeam`
      and `gradeAnswer` have been changing, so the teams (names, scores, member lists) are the
      ones from before the reset; every other field is back to its initial value. */
  function Reset(s: Snapshot): (r: Snapshot)
    ensures r.players == []
    ensures r.state.teams == s.state.teams
    ensures r.state.section == Setup && r.state.currentRound == 1
    ensures r.state.activeTeamId == Team1 && r.state.phase == Asking && r.state.onlinePlayers == []
    ensures s.state.teams == InitialTeams ==> r == Initial
  {
    Snapshot([], InitialState.(teams := s.state.teams))
  }

  // ---------------------------------------------------------------------------
  // Every operation keeps the invariant
  // ---------------------------------------------------------------------------

  /** The tail of a list with unique ids has unique ids, none of them the head's. */
  lemma UniqueIdsTail(ps: seq<Player>)
    requires ps != [] && UniqueIds(ps)
    ensures UniqueIds(ps[1..])
    ensures forall q :: q in ps[1..] ==> q.id != ps[0].id
  {
    var tail := ps[1..];
    forall i, j | 0 <= i < j < |tail| ensures tail[i].id != tail[j].id {
      assert tail[i] == ps[i + 1] && tail[j] == ps[j + 1];
    }
    forall q | q in tail ensures q.id != ps[0].id {
      var k :| 0 <= k < |tail| && tail[k] == q;
      assert tail[k] == ps[k + 1];
    }
  }

  /** Putting an entry with a fresh id in front of a list with unique ids keeps them unique. */
  lemma UniqueIdsCons(p: Player, rest: seq<Player>)
    requires UniqueIds(rest) && forall q :: q in rest ==> q.id != p.id
    ensures UniqueIds([p] + rest)
  {
    var r := [p] + rest;
    forall i, j | 0 <= i < j < |r| ensures r[i].id != r[j].id {
      assert r[j] == rest[j - 1];
      if i > 0 { assert r[i] == rest[i - 1]; }
    }
  }

  /** `removePlayer` keeps the remaining players in their order: filtering by id distributes
      over concatenation. */
  lemma {:induction false} WithoutIdAppend(a: seq<Player>, b: seq<Player>, id: string)
    ensures WithoutId(a + b, id) == WithoutId(a, id) + WithoutId(b, id)
  {
    if a != [] {
      var ab := a + b;
      assert ab[0] == a[0] && ab[1..] == a[1..] + b;
      WithoutIdAppend(a[1..], b, id);
      var head := if a[0].id == id then [] else [a[0]];
      var ra, rb := WithoutId(a[1..], id), WithoutId(b, id);
      assert WithoutId(ab, id) == head + (ra + rb);
      assert head + (ra + rb) == (head + ra) + rb;
    } else {
      assert a + b == b;
    }
  }

  /** Filtering by id keeps ids unique. */
  lemma {:induction false} UniqueIdsWithoutId(ps: seq<Player>, id: string)
    requires UniqueIds(ps)
    ensures UniqueIds(WithoutId(ps, id))
  {
    if ps != [] {
      UniqueIdsTail(ps);
      UniqueIdsWithoutId(ps[1..], id);
      if ps[0].id != id {
        UniqueIdsCons(ps[0], WithoutId(ps[1..], id));
      }
    }
  }

  lemma InvAddPlayer(s: Snapshot, id: string, name: string)
    requires Inv(s)
    ensures Inv(AddPlayer(s, id, name))
  {
    var ps := AddPlayer(s, id, name).players;
    if !Known(s.players, id) {
      forall i, j | 0 <= i < j < |ps| ensures ps[i].id != ps[j].id {
        assert ps[i] == s.players[i];
        if j < |s.players| { assert ps[j] == s.players[j]; }
      }
    }
  }

  lemma InvRemovePlayer(s: Snapshot, id: string)
    requires Inv(s)
    ensures Inv(RemovePlayer(s, id))
  {
    UniqueIdsWithoutId(s.players, id);
  }

  /** Moving a name between teams keeps the team ids and duplicate-free member lists. */
  lemma MoveNameKeepsValid(teams: Teams, from: Option<TeamId>, t: TeamId, name: string)
    requires TeamsValid(teams)
    ensures TeamsValid(MoveName(teams, from, t, name))
  {
    var left := if from.Some? then LeaveTeam(teams, from.value, name) else teams;
    assert NoDup(left.Get(t).players) && NoDup(left.Get(Other(t)).players) by {
      if from.Some? {
        NoDupWithout(teams.Get(from.value).players, name);
      }
    }
    var newTeam := left.Get(t);
    if name !in newTeam.players {
      NoDupAppendAbsent(newTeam.players, name);
    }
  }

  lemma InvJoinTeam(s: Snapshot, id: string, t: TeamId)
    requires Inv(s)
    ensures Inv(JoinTeam(s, id, t))
  {
    if Known(s.players, id) {
      var p := s.players[IndexOfId(s.players, id).value];
      var r := JoinTeam(s, id, t);
      assert UniqueIds(r.players) by {
        forall j | 0 <= j < |r.players| ensures r.players[j].id == s.players[j].id {}
      }
      MoveNameKeepsValid(s.state.teams, p.teamId, t, p.name);
    }
  }

  lemma InvStartGame(s: Snapshot, n1: string, n2: string)
    requires Inv(s)
    ensures Inv(StartGame(s, n1, n2))
  {
  }

  /** `startGame` puts both scores back to 0, a whole number of half points. */
  lemma InvScoresStartGame(s: Snapshot, n1: string, n2: string)
    ensures ScoresValid(StartGame(s, n1, n2))
  {
    assert (2.0 * 0.0).Floor == 0;
  }

  /** A grade of 0, 0.5 or 1 keeps a score a whole number of half points. */
  lemma HalfPointsAdd(x: real, points: Score)
    requires HalfPoints(x)
    ensures HalfPoints(x + points)
  {
    var n := (2.0 * x).Floor;
    var k := (2.0 * points).Floor;
    assert 2.0 * points == k as real;
    assert 2.0 * (x + points) == (n + k) as real;
  }

  lemma InvGradeAnswer(s: Snapshot, id: string, points: real)
    requires Inv(s)
    ensures Inv(GradeAnswer(s, id, points))
  {
  }

  /** Grading keeps the scores whole numbers of half points when the grade is a `Score`. */
  lemma ScoresValidGradeAnswer(s: Snapshot, id: string, points: Score)
    requires ScoresValid(s)
    ensures ScoresValid(GradeAnswer(s, id, points))
  {
    if CanGrade(s, id) {
      HalfPointsAdd(s.state.teams.Get(Other(s.state.activeTeamId)).score, points);
    }
  }

  // ---------------------------------------------------------------------------
  // Where joinTeam puts a name
  // ---------------------------------------------------------------------------

  /** After a name moves to team `t` it is on `t`'s list exactly once. Moving to the team it
      was on (re-joining) moves it to the end. Coming from elsewhere appends it at the end,
      unless another player's entry already put it there, in which case the list is kept.
      Coming from the other team filters it off that team's list; otherwise the other team
      is untouched. */
  lemma MoveNamePlacement(teams: Teams, from: Option<TeamId>, t: TeamId, name: string)
    requires TeamsValid(teams)
    ensures var after := MoveName(teams, from, t, name);
      && Count(after.Get(t).players, name) == 1
      && (from == Some(t) ==>
            after.Get(t).players == Without(teams.Get(t).players, name) + [name])
      && (from != Some(t) && name !in teams.Get(t).players ==>
            after.Get(t).players == teams.Get(t).players + [name])
      && (from != Some(t) && name in teams.Get(t).players ==>
            after.Get(t).players == teams.Get(t).players)
      && (from == Some(Other(t)) ==>
            after.Get(Other(t)).players == Without(teams.Get(Other(t)).players, name))
      && (from != Some(Other(t)) ==> after.Get(Other(t)) == teams.Get(Other(t)))
  {
    MoveNameKeepsValid(teams, from, t, name);
    var after := MoveName(teams, from, t, name);
    CountNoDup(after.Get(t).players, name);
  }
}
