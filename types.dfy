/** The data types shared by both copies of the game store (app/types.ts). */
module Types {

  datatype Option<T> = None | Some(value: T)

  /** `TeamId`: the two fixed teams. */
  datatype TeamId = Team1 | Team2

  /** The team that is not `t`: the answering team when `t` is asking. */
  function Other(t: TeamId): (r: TeamId)
    ensures r != t
    ensures t == Team1 <==> r == Team2
  {
    if t == Team1 then Team2 else Team1
  }

  /** `section`; the store never produces `GameOver`. */
  datatype Section = Setup | Playing | GameOver

  /** `GamePhase`; the store never produces `SetupPhase` (the 'setup' phase). */
  datatype Phase = SetupPhase | Asking | Answering | Grading

  /** The grades `0 | 0.5 | 1` that the TypeScript signature of `gradeAnswer` admits. */
  type Score = r: real | r == 0.0 || r == 0.5 || r == 1.0

  /** `Team`: its id, display name, score and the display names of its members, in join order. */
  datatype Team = Team(id: TeamId, name: string, score: real, players: seq<string>)

  /** The `teams` record: exactly two teams, looked up and replaced by id. */
  datatype Teams = Teams(team1: Team, team2: Team) {

    function Get(t: TeamId): Team {
      if t == Team1 then team1 else team2
    }

    /** The record with team `t` replaced and the other team kept. */
    function Set(t: TeamId, team: Team): (r: Teams)
      ensures r.Get(t) == team
      ensures r.Get(Other(t)) == Get(Other(t))
    {
      if t == Team1 then this.(team1 := team) else this.(team2 := team)
    }
  }

  /** An entry of the `onlinePlayers` roster. */
  datatype OnlinePlayer = OnlinePlayer(name: string, teamId: Option<TeamId>)

  /** `GameState`: `activeTeamId` is the team that is asking. */
  datatype GameState = GameState(
    section: Section,
    teams: Teams,
    currentRound: int,
    activeTeamId: TeamId,
    phase: Phase,
    onlinePlayers: seq<OnlinePlayer>)
}
