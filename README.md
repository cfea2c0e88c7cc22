# GameStore: the two-team trivia game state machine

This project models the in-memory `GameStore` of a two-team trivia game, in both of its
copies: `lib/gameStore.ts` and `lib/gameStore.js`. The two copies hold the same logic. The
JavaScript copy has no `setAsker`, and its `gradeAnswer` accepts any number.

The store keeps two fields:

- `players`: a list of `{id, name, teamId?}` entries, one per connected socket.
- `state`: the section, the two teams, the round, the phase and the online roster. Each team
  has a name, a score and a list of member names. `activeTeamId` names the team that is
  asking.

A question goes round a fixed cycle:

1. The asking team starts the question (`startAnswering`): asking becomes answering.
2. A player of the other team claims the answer (`raiseHand`): answering becomes grading.
3. The asking team grades it (`gradeAnswer`). The answering team gets 0, 0.5 or 1 point.
   The answering team asks next, and the round goes up by one.

Every guarded call whose guard fails changes nothing.

The project has three layers:

- `types.dfy`, module `Types`: the data types of `app/types.ts`.
- `lists.dfy` (module `Lists`) and `store.dfy` (module `Store`): the store as values. `Store`
  has one function per store method, giving the state after the call in terms of the state
  before it. It also has the invariant `Store.Inv`, with a lemma showing that `addPlayer`,
  `removePlayer`, `joinTeam`, `startGame` and `gradeAnswer` each keep it. The other
  four methods have no such lemma. `startAnswering`, `setAsker` and `raiseHand` only set
  the phase to answering or grading. `reset` keeps the teams and otherwise restores the
  initial values. Dafny proves directly, inside `Session.ApplyKeepsInv`, that these four
  keep the invariant.
- `game_store_ts.dfy` (module `GameStoreTs`) and `game_store_js.dfy` (module `GameStoreJs`):
  each copy as a class with the source's two fields, updated in place.
  - Every mutating method has the contract `View() == Store.Op(old(View()), ...)`, and it
    keeps `Valid()`.
  - `players.find` is the loop `FindPlayer`.

`session.dfy` (module `Session`) models the calls as a sequence of actions made one at a
time, as the socket handlers make them. It proves what holds over every such sequence.

Four behaviours of the code are worth knowing. The model follows the code in each case:

- `removePlayer` does not take the departing player's name off its team's member list
  (`Session.RemovedPlayerStaysListed`).
- Display names need not be unique, so one name can sit on both teams' lists
  (`Session.SameNameOnBothTeams`).
- `reset` makes a shallow copy of `initialGameState`. The copy shares the `teams` object that
  `startGame`, `joinTeam` and `gradeAnswer` changed in place, so team names, scores and
  member lists survive `reset`. `players` is emptied and every other field of `state` returns
  to its initial value.
- `setAsker` (TypeScript copy only) moves any phase to answering for any known player
  (`Session.SetAskerLeavesCycle`).

## Model

| member | source | states |
|---|---|---|
| `Types.Other` | lib/gameStore.ts:135-136 | the answering team is always the team that is not asking, and team1 maps to team2 |
| `Lists.Without` | lib/gameStore.ts:52 | filtering a member list removes every copy of the name and keeps every other name; its length drops by the number of copies |
| `Lists.WithoutAppend` | lib/gameStore.js:53 | filtering distributes over concatenation, so the remaining names keep their order |
| `Lists.NoDupWithout` | lib/gameStore.ts:52 | filtering a member list that has no duplicates gives a list without duplicates |
| `Lists.NoDupAppendAbsent` | lib/gameStore.ts:57-59 | pushing a name only when it is absent keeps a member list free of duplicates |
| `Lists.CountNoDup` | lib/gameStore.js:58-61 | in a list without duplicates, a name that is present occurs exactly once |
| `Store.IndexOfId` | lib/gameStore.ts:34 | `find` by id returns the first entry with that id, and nothing exactly when no entry has it |
| `Store.IndexOfFirst` | lib/gameStore.ts:47 | any entry with the id and none before it is the entry `find` returns |
| `Store.WithoutId` | lib/gameStore.ts:42 | filtering by id keeps exactly the entries whose id differs |
| `Store.Roster` | lib/gameStore.ts:25-30 | `onlinePlayers` has one `(name, teamId)` entry per player, in the same order |
| `Store.WithRoster` | lib/gameStore.ts:25-30 | the roster gets one `(name, teamId)` entry per player, in order, and nothing else in the state changes |
| `Store.AddPlayer` | lib/gameStore.ts:32-39 | an unseen id is appended as `{id, name}` with no team; a known id leaves `players` unchanged; afterwards the id is known, the roster mirrors `players`, and nothing else in `state` changes |
| `Store.RemovePlayer` | lib/gameStore.ts:41-44 | every entry with the id is dropped and every other entry is kept; the id is gone afterwards; the roster mirrors `players`; teams, scores, phase and round are untouched |
| `Store.JoinTeam` | lib/gameStore.ts:46-62 | an unknown id changes nothing; otherwise only the player's own `teamId` becomes the target team, the teams change as `Store.MoveName` moves the player's name from the old team (if any) to the target team, the roster is recomputed, and nothing else in `state` changes |
| `Store.MoveName` | lib/gameStore.ts:49-59 | the name ends up on the target team's list, and off the old team's list when the player switches teams; the other team is untouched unless the player came from it; no team's id, name or score changes |
| `Store.LeaveTeam` | lib/gameStore.ts:49-53 | the old team's list becomes that list with the name filtered out, so the name is gone from it; nothing else about that team changes, and the other team is unchanged |
| `Store.StartGame` | lib/gameStore.ts:66-76 | whatever the prior state: new names, both scores 0, section playing, phase asking, team1 asking, round 1; member lists, players and roster are kept |
| `Store.StartAnswering` | lib/gameStore.ts:78-88 | asking becomes answering exactly when the actor is found, has a team, and that team is the asking team; otherwise the whole store is unchanged |
| `Store.SetAsker` | lib/gameStore.ts:90-99 | any known player sets the phase to answering, whatever the phase and the team; an unknown id changes nothing |
| `Store.RaiseHand` | lib/gameStore.ts:101-122 | returns true exactly when the phase is answering and the actor has a team other than the asking team; on true the phase becomes grading and nothing else changes; on false nothing changes |
| `Store.GradeAnswer` | lib/gameStore.ts:124-144 | when the phase is grading and the actor is on the asking team: the answering team gains exactly the points and nothing else about it changes, the asking team is untouched, the answering team asks next, the phase is asking, and the round goes up by one; otherwise nothing changes |
| `Store.Reset` | lib/gameStore.ts:146-149 | `players` becomes empty, the teams are the same as before, and section, round, asking team, phase and roster take their initial values; from untouched teams this is exactly a fresh store |
| `Store.UniqueIdsWithoutId` | lib/gameStore.ts:42 | filtering by id keeps player ids unique |
| `Store.InvAddPlayer` | lib/gameStore.ts:32-39 | `addPlayer` keeps the store invariant; ids stay unique because a known id is refused |
| `Store.InvRemovePlayer` | lib/gameStore.ts:41-44 | `removePlayer` keeps the store invariant |
| `Store.InvJoinTeam` | lib/gameStore.ts:46-62 | `joinTeam` keeps the store invariant, in particular no duplicate name on either member list |
| `Store.InvStartGame` | lib/gameStore.ts:66-76 | `startGame` keeps the store invariant, including a round of at least 1 |
| `Store.InvScoresStartGame` | lib/gameStore.ts:73-74 | after `startGame` both scores are valid half-point totals |
| `Store.HalfPointsAdd` | lib/gameStore.ts:138 | adding a grade of 0, 0.5 or 1 to a whole number of half points gives a whole number of half points |
| `Store.InvGradeAnswer` | lib/gameStore.ts:124-144 | `gradeAnswer` keeps the store invariant; the round stays at least 1 |
| `Store.ScoresValidGradeAnswer` | lib/gameStore.ts:124 | with the typed grades 0, 0.5 and 1, every score stays a non-negative whole number of half points |
| `Store.MoveNameKeepsValid` | lib/gameStore.ts:49-59 | moving a name between the member lists keeps both team ids right and both lists free of duplicates |
| `Store.MoveNamePlacement` | lib/gameStore.ts:46-62 | after joining, the name is on the target team's list exactly once. Re-joining the same team moves it to the end. Coming from elsewhere appends it at the end, or leaves the list as it was if the name was already there. A player coming from the other team is filtered off that team's list; otherwise the other team is untouched |
| `Session.ApplyKeepsInv` | lib/gameStore.ts:32-149 | every store call keeps the invariant |
| `Session.RunKeepsInv` | lib/gameStore.js:33-128 | any sequence of calls keeps the invariant: unique ids, round at least 1, no 'gameover' section and no 'setup' phase, duplicate-free member lists, and a roster that mirrors `players` |
| `Session.ApplyKeepsScoresValid` | lib/gameStore.ts:124-144 | one call with a typed grade keeps scores whole numbers of half points |
| `Session.RunKeepsScoresValid` | lib/gameStore.ts:124-144 | any sequence of calls whose grades are 0, 0.5 or 1 keeps both scores whole numbers of half points |
| `Session.PhaseCycle` | lib/gameStore.js:79-128 | without `setAsker`, the phase moves one step along asking, answering, grading only through the call that guards that step, or returns to asking through `startGame` or `reset` |
| `Session.SetAskerLeavesCycle` | lib/gameStore.ts:90-99 | from grading, `setAsker` by a known player sets answering, which is not the next phase of the cycle |
| `Session.RoundStep` | lib/gameStore.js:66-128 | the round changes only when a grade is accepted, and then by exactly one, or is set to 1 by `startGame` and `reset` |
| `Session.ScoresNeverDecrease` | lib/gameStore.js:105-128 | over any sequence of calls with no `startGame` and non-negative grades, neither team's score decreases, even across `reset` |
| `Session.AddPlayerIdempotent` | lib/gameStore.js:33-39 | a second `addPlayer` with a known id changes nothing, whatever its name |
| `Session.SecondClaimFails` | lib/gameStore.js:91-103 | after a successful `raiseHand`, any further `raiseHand` returns false and changes nothing, so the first claim wins |
| `Store.WithoutIdAppend` | lib/gameStore.js:41-44 | removing by id distributes over concatenation, so the other players keep their order |
| `Session.RemovedPlayerStaysListed` | lib/gameStore.ts:41-44 | a player who joined a team and then disconnected is still on that team's member list |
| `Session.AddTwoPlayers` | lib/gameStore.ts:32-39 | two `addPlayer` calls with new, distinct ids append both players, with no team, in call order |
| `Session.JoinFromNoTeam` | lib/gameStore.ts:46-62 | a player on no team who joins a team is put on its list, at the end if the name was absent; the other team is untouched and only that player's entry changes |
| `Session.JoinBoth` | lib/gameStore.ts:46-62 | two players at the end of the list, on no team, join team1 and team2 in turn: both get their team, each name is on its team's list, appended when it was absent |
| `Session.SameNameOnBothTeams` | lib/gameStore.ts:46-62 | two players with the same display name who join different teams put that name on both lists |
| `Session.JoinTwo` | lib/gameStore.ts:32-62 | two new players who join team1 and team2 are appended in order with their teams set, and each name is appended to its team's list |
| `Session.LobbyTeams` | lib/gameStore.ts:17-62 | from a fresh store, after two players join and pick team1 and team2, each team lists exactly its player's name and keeps its initial name and score 0 |
| `Session.LobbyClaim` | lib/gameStore.ts:66-122 | from that lobby, after `startGame`, the team1 player starts the question and the team2 player's claim succeeds; the store is then grading, team1 asking, round 1, with the new team names and scores 0 |
| `Session.ExampleRound` | lib/gameStore.ts:124-144 | after that claim the team1 player grades it 1: team2 has 1 point, team1 has 0, team2 asks next, the phase is asking and the round is 2 |
| `GameStoreTs.GameStore.constructor` | lib/gameStore.ts:17-19 | a new store is `initialGameState` with no players, and it satisfies the invariant |
| `GameStoreTs.GameStore.GetState` | lib/gameStore.ts:21-23 | returns the `state` field, the store's state without the players |
| `GameStoreTs.GameStore.FindPlayer` | lib/gameStore.ts:34 | the linear search returns the index of the first entry with the id, or nothing when there is none |
| `GameStoreTs.GameStore.UpdateOnlinePlayers` | lib/gameStore.ts:25-30 | only `onlinePlayers` changes, and it becomes the roster of `players` |
| `GameStoreTs.GameStore.AddPlayer` | lib/gameStore.ts:32-39 | the fields change as `Store.AddPlayer` says, and the invariant is kept |
| `GameStoreTs.GameStore.RemovePlayer` | lib/gameStore.ts:41-44 | the fields change as `Store.RemovePlayer` says, and the invariant is kept |
| `GameStoreTs.GameStore.JoinTeam` | lib/gameStore.ts:46-62 | the in-place filter, field update and push change the fields as `Store.JoinTeam` says, and the invariant is kept |
| `GameStoreTs.GameStore.StartGame` | lib/gameStore.ts:66-76 | the eight field assignments change the fields as `Store.StartGame` says, and the invariant is kept |
| `GameStoreTs.GameStore.StartAnswering` | lib/gameStore.ts:78-88 | the early-return guards and the phase assignment change the fields as `Store.StartAnswering` says |
| `GameStoreTs.GameStore.SetAsker` | lib/gameStore.ts:90-99 | the fields change as `Store.SetAsker` says |
| `GameStoreTs.GameStore.RaiseHand` | lib/gameStore.ts:101-122 | the new fields and the returned flag are those of `Store.RaiseHand` |
| `GameStoreTs.GameStore.GradeAnswer` | lib/gameStore.ts:124-144 | with a grade of 0, 0.5 or 1, the fields change as `Store.GradeAnswer` says, and scores stay half-point totals |
| `GameStoreTs.GameStore.Reset` | lib/gameStore.ts:146-149 | the fields change as `Store.Reset` says: the shared teams are kept and everything else is initial |
| `GameStoreJs.GameStore.constructor` | lib/gameStore.js:15-20 | a new store is `initialGameState` with no players, and it satisfies the invariant |
| `GameStoreJs.GameStore.GetState` | lib/gameStore.js:22-24 | returns the `state` field, the store's state without the players |
| `GameStoreJs.GameStore.FindPlayer` | lib/gameStore.js:34 | the linear search returns the index of the first entry with the id, or nothing when there is none |
| `GameStoreJs.GameStore.UpdateOnlinePlayers` | lib/gameStore.js:26-31 | only `onlinePlayers` changes, and it becomes the roster of `players` |
| `GameStoreJs.GameStore.AddPlayer` | lib/gameStore.js:33-39 | the fields change as `Store.AddPlayer` says, and the invariant is kept |
| `GameStoreJs.GameStore.RemovePlayer` | lib/gameStore.js:41-44 | the fields change as `Store.RemovePlayer` says, and the invariant is kept |
| `GameStoreJs.GameStore.JoinTeam` | lib/gameStore.js:46-64 | the fields change as `Store.JoinTeam` says, and the invariant is kept |
| `GameStoreJs.GameStore.StartGame` | lib/gameStore.js:66-77 | the fields change as `Store.StartGame` says, and the invariant is kept |
| `GameStoreJs.GameStore.StartAnswering` | lib/gameStore.js:79-89 | the fields change as `Store.StartAnswering` says |
| `GameStoreJs.GameStore.RaiseHand` | lib/gameStore.js:91-103 | the new fields and the returned flag are those of `Store.RaiseHand` |
| `GameStoreJs.GameStore.GradeAnswer` | lib/gameStore.js:105-123 | for any grade, taken as an exact real number, the fields change as `Store.GradeAnswer` says, and the invariant is kept |
| `GameStoreJs.GameStore.Reset` | lib/gameStore.js:125-128 | the fields change as `Store.Reset` says: the shared teams are kept and everything else is initial |

## Left out

- Everything outside the store is left out: the Socket.IO and Express server, the client socket hook and the React components. That code is I/O and rendering. The server only forwards events to the store and broadcasts `getState()`, which returns the `state` field.
- Concurrency is left out. Each socket handler runs to completion on the JavaScript event loop, so each store method is one atomic call. `Session` composes calls one after another.
- `getState` returns the live `state` object, so a caller could mutate the store through it. The model returns the value. No caller in the repository mutates it.
- Only one store instance is modelled. `reset` and `new GameStore()` copy `initialGameState` shallowly, so a second instance in the same process would share the mutated `teams` object. The module exports a single instance, and the model starts it from the pristine initial teams.
- Scores are exact `real` numbers, not IEEE doubles. In the TypeScript copy every grade is 0, 0.5 or 1, so the scores are sums of halves, which doubles represent exactly up to 2^52, and the two agree there.
- `GameStoreJs.GameStore.JoinTeam`: the JavaScript copy takes an untyped team id. A value other than `team1` or `team2` throws a `TypeError` at `newTeam.players`, after `player.teamId` is already set and the old team's list already filtered. The model types the parameter as `TeamId`, so that partial update and the failure are not modelled.
- `GameStoreTs.GameStore.JoinTeam`: the same holds for the TypeScript copy. Its `TeamId` parameter type is checked only at compile time, and `server.ts` forwards the value received from the socket unchecked, so a value other than `team1` or `team2` reaches lib/gameStore.ts:57. There it throws after lines 52 and 54 have already run. The model does not capture this.
- `GameStoreJs.GameStore.GradeAnswer`: the JavaScript copy accepts any value as the grade. The model takes any `real` and adds it exactly. It therefore does not model three things:
  - the rounding of double addition for grades that are not multiples of 0.5 (a score of 0.2 plus a grade of 0.1 gives 0.30000000000000004, not 0.3);
  - `NaN` and `±Infinity`, which have no `real` counterpart;
  - non-numeric values, for example a string, which `+=` would concatenate.
- `GameStoreTs.GameStore.GradeAnswer`: the grade has the subset type `Score` (0, 0.5 or 1), as the `0 | 0.5 | 1` signature declares. TypeScript checks that type only at compile time, and `server.ts` forwards the socket's value unchecked, so at run time the TypeScript copy behaves like the JavaScript copy above. The model assumes the declared type holds.
- The `'gameover'` section and the `'setup'` phase of `app/types.ts` are in the data types, but the store never produces them; `Store.Inv` states that they do not occur.
