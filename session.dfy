/** Sequences of store calls, as the socket handlers of the server make them one at a time,
    and what holds of every such sequence. */
module Session {
  import opened Types
  import opened Lists
  import opened Store

  /** One store call, named after the socket event that triggers it. `PickAsker` is
      `setAsker`, which only the TypeScript copy has and no handler calls; `Restart` is
      `reset`, which no handler calls either. */
  datatype Action =
    | Connect(id: string, name: string)
    | Disconnect(id: string)
    | PickTeam(id: string, team: TeamId)
    | Start(team1Name: string, team2Name: string)
    | QuestionAsked(id: string)
    | PickAsker(id: string)
    | HandRaised(id: string)
    | Grade(id: string, points: real)
    | Restart

  /** The store after one call. */
  function Apply(s: Snapshot, a: Action): Snapshot {
    match a
    case Connect(id, name) => AddPlayer(s, id, name)
    case Disconnect(id) => RemovePlayer(s, id)
    case PickTeam(id, team) => JoinTeam(s, id, team)
    case Start(n1, n2) => StartGame(s, n1, n2)
    case QuestionAsked(id) => StartAnswering(s, id)
    case PickAsker(id) => SetAsker(s, id)
    case HandRaised(id) => RaiseHand(s, id).0
    case Grade(id, points) => GradeAnswer(s, id, points)
    case Restart => Reset(s)
  }

  /** The store after a sequence of calls, first to last. */
  function Run(s: Snapshot, acts: seq<Action>): Snapshot
    decreases |acts|
  {
    if acts == [] then s else Run(Apply(s, acts[0]), acts[1..])
  }

  /** Every call keeps the invariant. */
  lemma ApplyKeepsInv(s: Snapshot, a: Action)
    requires Inv(s)
    ensures Inv(Apply(s, a))
  {
    match a
    case Connect(id, name) => InvAddPlayer(s, id, name);
    case Disconnect(id) => InvRemovePlayer(s, id);
    case PickTeam(id, team) => InvJoinTeam(s, id, team);
    case Start(n1, n2) => InvStartGame(s, n1, n2);
    case Grade(id, points) => InvGradeAnswer(s, id, points);
    case _ =>
  }

  /** Any sequence of calls from a store that satisfies the invariant, in particular from a
      fresh one, keeps it: ids stay unique, the round stays at least 1, no member list holds
      a name twice and the roster mirrors the players. */
  lemma {:induction false} RunKeepsInv(s: Snapshot, acts: seq<Action>)
    requires Inv(s)
    ensures Inv(Run(s, acts))
    decreases |acts|
  {
    if acts != [] {
      ApplyKeepsInv(s, acts[0]);
      RunKeepsInv(Apply(s, acts[0]), acts[1..]);
    }
  }

  /** The grade of a call, if it is a `Grade` call, is one the TypeScript signature admits. */
  predicate TypedGrade(a: Action) {
    a.Grade? ==> a.points == 0.0 || a.points == 0.5 || a.points == 1.0
  }

  /** A call whose grade, if any, is admitted by the TypeScript signature keeps the scores
      whole numbers of half points. */
  lemma ApplyKeepsScoresValid(s: Snapshot, a: Action)
    requires ScoresValid(s) && TypedGrade(a)
    ensures ScoresValid(Apply(s, a))
  {
    match a
    case Grade(id, points) => ScoresValidGradeAnswer(s, id, points);
    case Start(n1, n2) => InvScoresStartGame(s, n1, n2);
    case _ =>
  }

  /** With grades of 0, 0.5 and 1 only, scores stay whole numbers of half points. */
  lemma {:induction false} RunKeepsScoresValid(s: Snapshot, acts: seq<Action>)
    requires ScoresValid(s)
    requires forall k :: 0 <= k < |acts| ==> TypedGrade(acts[k])
    ensures ScoresValid(Run(s, acts))
    decreases |acts|
  {
    if acts != [] {
      ApplyKeepsScoresValid(s, acts[0]);
      RunKeepsScoresValid(Apply(s, acts[0]), acts[1..]);
    }
  }

  /** The phase that follows `p` in the cycle asking, answering, grading. */
  function Next(p: Phase): Phase {
    match p
    case Asking => Answering
    case Answering => Grading
    case Grading => Asking
    case SetupPhase => SetupPhase
  }

  /** The call that moves the phase on from `p`. */
  predicate Advances(a: Action, p: Phase) {
    match p
    case Asking => a.QuestionAsked?
    case Answering => a.HandRaised?
    case Grading => a.Grade?
    case SetupPhase => false
  }

  /** Without `setAsker` (so for every call of the JavaScript copy) the phase only moves one
      step along the cycle asking, answering, grading, and only by the call guarding that
      step, or back to asking by `startGame` or `reset`. */
  lemma PhaseCycle(s: Snapshot, a: Action)
    requires !a.PickAsker?
    ensures var r := Apply(s, a);
      r.state.phase == s.state.phase
      || (r.state.phase == Next(s.state.phase) && Advances(a, s.state.phase))
      || ((a.Start? || a.Restart?) && r.state.phase == Asking)
  {
  }

  /** `setAsker` breaks the cycle: from grading, a known player sends the phase to answering. */
  lemma SetAskerLeavesCycle(s: Snapshot, id: string)
    requires s.state.phase == Grading && Known(s.players, id)
    ensures Apply(s, PickAsker(id)).state.phase == Answering != Next(s.state.phase)
  {
  }

  /** The round only changes by a successful grade, which adds exactly one, or by
      `startGame` and `reset`, which set it to 1. */
  lemma RoundStep(s: Snapshot, a: Action)
    ensures var r := Apply(s, a);
      r.state.currentRound == s.state.currentRound
      || (a.Grade? && CanGrade(s, a.id) && r.state.currentRound == s.state.currentRound + 1)
      || ((a.Start? || a.Restart?) && r.state.currentRound == 1)
  {
  }

  /** Only `startGame` lowers a score: through every other call, `reset` included (it keeps
      the teams), and with non-negative grades, both scores never decrease. */
  lemma {:induction false} ScoresNeverDecrease(s: Snapshot, acts: seq<Action>)
    requires forall k :: 0 <= k < |acts| ==> !acts[k].Start? && (acts[k].Grade? ==> acts[k].points >= 0.0)
    ensures forall t :: Run(s, acts).state.teams.Get(t).score >= s.state.teams.Get(t).score
    decreases |acts|
  {
    if acts != [] {
      var a := acts[0];
      var s' := Apply(s, a);
      assert forall t :: s'.state.teams.Get(t).score >= s.state.teams.Get(t).score by {
        forall t ensures s'.state.teams.Get(t).score >= s.state.teams.Get(t).score {
          if a.Grade? && CanGrade(s, a.id) {
            assert t == s.state.activeTeamId || t == Other(s.state.activeTeamId);
          }
        }
      }
      ScoresNeverDecrease(s', acts[1..]);
    }
  }

  /** `addPlayer` with an id already present changes nothing, whatever the name. */
  lemma AddPlayerIdempotent(s: Snapshot, id: string, name: string, name2: string)
    ensures AddPlayer(AddPlayer(s, id, name), id, name2) == AddPlayer(s, id, name)
  {
  }

  /** First claim wins: once a `raiseHand` succeeds, any further `raiseHand`, by anyone,
      returns false and changes nothing. */
  lemma SecondClaimFails(s: Snapshot, first: string, second: string)
    requires RaiseHand(s, first).1
    ensures var s' := RaiseHand(s, first).0;
      !RaiseHand(s', second).1 && RaiseHand(s', second).0 == s'
  {
  }

  /** `removePlayer` leaves the team lists alone: a player who joined a team and then left
      is still listed as a member of it. */
  lemma RemovedPlayerStaysListed(s: Snapshot, id: string, name: string, t: TeamId)
    requires Inv(s) && !Known(s.players, id)
    ensures name in RemovePlayer(JoinTeam(AddPlayer(s, id, name), id, t), id).state.teams.Get(t).players
  {
    var s1 := AddPlayer(s, id, name);
    assert s1.players[|s.players|] == Player(id, name, None);
    assert IndexOfId(s1.players, id) == Some(|s.players|);
  }

  /** Two new players with distinct ids are appended in call order. */
  lemma AddTwoPlayers(s: Snapshot, a: string, b: string, nameA: string, nameB: string)
    requires a != b && !Known(s.players, a) && !Known(s.players, b)
    ensures AddPlayer(AddPlayer(s, a, nameA), b, nameB).players
         == s.players + [Player(a, nameA, None), Player(b, nameB, None)]
  {
    var s1 := AddPlayer(s, a, nameA);
    assert !Known(s1.players, b) by {
      forall j | 0 <= j < |s1.players| ensures s1.players[j].id != b {
        if j < |s.players| { assert s1.players[j] == s.players[j]; }
      }
    }
  }

  /** A player on no team who joins team `t` is put on `t`'s list, at its end if the name
      was not there yet; the other team is untouched, and only that player's entry changes. */
  lemma JoinFromNoTeam(s: Snapshot, id: string, t: TeamId, k: nat)
    requires IndexOfId(s.players, id) == Some(k) && s.players[k].teamId.None?
    ensures var r := JoinTeam(s, id, t);
      var name := s.players[k].name;
      && name in r.state.teams.Get(t).players
      && (name !in s.state.teams.Get(t).players ==>
            r.state.teams.Get(t) == s.state.teams.Get(t).(players := s.state.teams.Get(t).players + [name]))
      && r.state.teams.Get(Other(t)) == s.state.teams.Get(Other(t))
      && r.players == s.players[k := s.players[k].(teamId := Some(t))]
  {
  }

  /** Replacing either of two entries appended to `ps` replaces it in the appended pair. */
  lemma UpdateAppended(ps: seq<Player>, p: Player, q: Player, p': Player, q': Player)
    ensures (ps + [p, q])[|ps| := p'] == ps + [p', q]
    ensures (ps + [p, q])[|ps| + 1 := q'] == ps + [p, q']
  {
  }

  /** Two players at the end of the list, new to it before them and on no team, join team1
      and team2 in turn: both get their team, each name is put on its team's list (at its
      end when absent), and nothing else about the teams changes. */
  lemma JoinBoth(s: Snapshot, ps: seq<Player>, a: string, b: string, nameA: string, nameB: string)
    requires a != b && !Known(ps, a) && !Known(ps, b)
    requires s.players == ps + [Player(a, nameA, None), Player(b, nameB, None)]
    ensures var r := JoinTeam(JoinTeam(s, a, Team1), b, Team2);
      && r.players == ps + [Player(a, nameA, Some(Team1)), Player(b, nameB, Some(Team2))]
      && nameA in r.state.teams.team1.players
      && nameB in r.state.teams.team2.players
      && (nameA !in s.state.teams.team1.players ==>
            r.state.teams.team1 == s.state.teams.team1.(players := s.state.teams.team1.players + [nameA]))
      && (nameB !in s.state.teams.team2.players ==>
            r.state.teams.team2 == s.state.teams.team2.(players := s.state.teams.team2.players + [nameB]))
  {
    var n := |ps|;
    IndexOfFirst(s.players, a, n);
    JoinFromNoTeam(s, a, Team1, n);
    var s3 := JoinTeam(s, a, Team1);
    UpdateAppended(ps, Player(a, nameA, None), Player(b, nameB, None),
                   Player(a, nameA, Some(Team1)), Player(b, nameB, Some(Team2)));
    UpdateAppended(ps, Player(a, nameA, Some(Team1)), Player(b, nameB, None),
                   Player(a, nameA, Some(Team1)), Player(b, nameB, Some(Team2)));
    IndexOfFirst(s3.players, b, n + 1);
    JoinFromNoTeam(s3, b, Team2, n + 1);
  }

  /** Display names are not unique, so two players with the same name who join different
      teams put that name on both member lists. */
  lemma SameNameOnBothTeams(s: Snapshot, a: string, b: string, name: string)
    requires a != b && !Known(s.players, a) && !Known(s.players, b)
    ensures var r := JoinTeam(JoinTeam(AddPlayer(AddPlayer(s, a, name), b, name), a, Team1), b, Team2);
      name in r.state.teams.team1.players && name in r.state.teams.team2.players
  {
    AddTwoPlayers(s, a, b, name, name);
    JoinBoth(AddPlayer(AddPlayer(s, a, name), b, name), s.players, a, b, name, name);
  }

  /** Two new players, the first picking team1 and the second team2, each with a name not
      yet on that team's list: both entries are appended in call order with their teams set,
      and each name is appended to its team's list. */
  lemma JoinTwo(s: Snapshot, a: string, b: string, nameA: string, nameB: string)
    requires a != b && !Known(s.players, a) && !Known(s.players, b)
    requires nameA !in s.state.teams.team1.players && nameB !in s.state.teams.team2.players
    ensures var r := JoinTeam(JoinTeam(AddPlayer(AddPlayer(s, a, nameA), b, nameB), a, Team1), b, Team2);
      && r.players == s.players + [Player(a, nameA, Some(Team1)), Player(b, nameB, Some(Team2))]
      && r.state.teams.team1 == s.state.teams.team1.(players := s.state.teams.team1.players + [nameA])
      && r.state.teams.team2 == s.state.teams.team2.(players := s.state.teams.team2.players + [nameB])
  {
    AddTwoPlayers(s, a, b, nameA, nameB);
    var s2 := AddPlayer(AddPlayer(s, a, nameA), b, nameB);
    assert s2.state.teams == s.state.teams;
    JoinBoth(s2, s.players, a, b, nameA, nameB);
  }

  /** A fresh store that two players `a` and `b` have joined, in which `a` has picked
      team1 and `b` team2. */
  function Lobby(a: string, b: string, nameA: string, nameB: string): Snapshot {
    JoinTeam(JoinTeam(AddPlayer(AddPlayer(Initial, a, nameA), b, nameB), a, Team1), b, Team2)
  }

  /** In that lobby each player is on the team picked, and each team lists that one name. */
  lemma LobbyTeams(a: string, b: string, nameA: string, nameB: string)
    requires a != b
    ensures Lobby(a, b, nameA, nameB).players == [Player(a, nameA, Some(Team1)), Player(b, nameB, Some(Team2))]
    ensures Lobby(a, b, nameA, nameB).state.teams.team1 == Team(Team1, "Team 1", 0.0, [nameA])
    ensures Lobby(a, b, nameA, nameB).state.teams.team2 == Team(Team2, "Team 2", 0.0, [nameB])
  {
    JoinTwo(Initial, a, b, nameA, nameB);
  }

  /** In any store whose players are `a` on team1 and `b` on team2, the game starts with
      teams named `n1` and `n2`, `a` (team1, the asking team) asks, and `b` (team2) claims
      the answer: the claim succeeds and the store waits for the grade. */
  lemma ClaimAfterStart(l: Snapshot, a: string, b: string, nameA: string, nameB: string, n1: string, n2: string)
    requires a != b
    requires l.players == [Player(a, nameA, Some(Team1)), Player(b, nameB, Some(Team2))]
    ensures
      var claimed := RaiseHand(StartAnswering(StartGame(l, n1, n2), a), b);
      && claimed.1
      && claimed.0 == StartGame(l, n1, n2).(state := StartGame(l, n1, n2).state.(phase := Grading))
  {
    IndexOfFirst(l.players, a, 0);
    IndexOfFirst(l.players, b, 1);
  }

  /** From that lobby the same start, question and claim: the claim succeeds, and the store
      is grading with team1 asking in round 1, both teams renamed and at score 0. */
  lemma LobbyClaim(a: string, b: string, nameA: string, nameB: string, n1: string, n2: string)
    requires a != b
    ensures
      var claimed := RaiseHand(StartAnswering(StartGame(Lobby(a, b, nameA, nameB), n1, n2), a), b);
      && claimed.1
      && claimed.0.players == Lobby(a, b, nameA, nameB).players
      && claimed.0.state.teams.team1 == Team(Team1, n1, 0.0, [nameA])
      && claimed.0.state.teams.team2 == Team(Team2, n2, 0.0, [nameB])
      && claimed.0.state.activeTeamId == Team1
      && claimed.0.state.phase == Grading
      && claimed.0.state.currentRound == 1
  {
    LobbyTeams(a, b, nameA, nameB);
    ClaimAfterStart(Lobby(a, b, nameA, nameB), a, b, nameA, nameB, n1, n2);
  }

  /** One full question cycle from that lobby: after `b`'s claim, `a` grades it 1; team2
      gains the point, team1 keeps 0, team2 asks next and the round is 2. */
  lemma ExampleRound(a: string, b: string, nameA: string, nameB: string, n1: string, n2: string)
    requires a != b
    ensures
      var claimed := RaiseHand(StartAnswering(StartGame(Lobby(a, b, nameA, nameB), n1, n2), a), b);
      var r := GradeAnswer(claimed.0, a, 1.0);
      && r.state.teams.team1 == Team(Team1, n1, 0.0, [nameA])
      && r.state.teams.team2 == Team(Team2, n2, 1.0, [nameB])
      && r.state.activeTeamId == Team2
      && r.state.phase == Asking
      && r.state.currentRound == 2
  {
    LobbyClaim(a, b, nameA, nameB, n1, n2);
    LobbyTeams(a, b, nameA, nameB);
    var claimed := RaiseHand(StartAnswering(StartGame(Lobby(a, b, nameA, nameB), n1, n2), a), b).0;
    IndexOfFirst(claimed.players, a, 0);
    assert CanGrade(claimed, a);
  }
}
