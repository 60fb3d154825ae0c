/**
 * The Ryder Cup draft data: the two teams, the seeded roster, the starting
 * draft state and the turn-order rule (src/data/ryder-cup.ts).
 */
module RyderCup {
  import opened Wrappers

  /** `'rwb' | 'gwr'`. */
  datatype TeamId = Rwb | Gwr

  datatype DraftPlayer = DraftPlayer(
    id: int,
    name: string,
    handicap: int,
    captain: bool,
    captainOf: Option<TeamId>,
    team: Option<TeamId>,
    pickNumber: Option<int>)

  datatype LogEntry = LogEntry(pick: int, team: TeamId, playerName: string, handicap: int, timestamp: string)

  datatype DraftState = DraftState(
    players: seq<DraftPlayer>,
    log: seq<LogEntry>,
    firstTeam: Option<TeamId>,
    coinFlipDone: bool)

  /** The captain named in the `TEAMS` table for each team. */
  function TeamCaptain(t: TeamId): string {
    match t
    case Rwb => "Ryan Parker"
    case Gwr => "Cole Dominguez"
  }

  function Captain(id: int, name: string, handicap: int, t: TeamId): DraftPlayer {
    DraftPlayer(id, name, handicap, true, Some(t), Some(t), None)
  }

  function Undrafted(id: int, name: string, handicap: int): DraftPlayer {
    DraftPlayer(id, name, handicap, false, None, None, None)
  }

  /** `INITIAL_PLAYERS`: the two captains already on their teams, then the fourteen players of the draft pool. */
  const InitialPlayers: seq<DraftPlayer> := [
    Captain(1, "Cole Dominguez", 2, Gwr),
    Captain(2, "Ryan Parker", 6, Rwb),
    Undrafted(3, "Parker Helmig", 9),
    Undrafted(4, "Layne Pickens", 9),
    Undrafted(5, "Ty Walsh", 11),
    Undrafted(6, "Jared Janczak", 11),
    Undrafted(7, "Beau Heitmiller", 12),
    Undrafted(8, "Tyler Pate", 13),
    Undrafted(9, "Durham Smythe", 16),
    Undrafted(10, "Brady Allison", 16),
    Undrafted(11, "Luke Boren", 17),
    Undrafted(12, "Patrick Walls", 17),
    Undrafted(13, "Austin Maldonado", 19),
    Undrafted(14, "Sage Shorey", 19),
    Undrafted(15, "Joey Zembo", 27),
    Undrafted(16, "Tyler Bradford", 29)
  ]

  /** `TOTAL_PICKS`. */
  const TotalPicks: nat := 14

  /** The number of players in `ps` that are captains. */
  function CaptainCount(ps: seq<DraftPlayer>): (n: nat)
    ensures n <= |ps|
    ensures n == 0 <==> forall i :: 0 <= i < |ps| ==> !ps[i].captain
  {
    if ps == [] then 0 else (if ps[0].captain then 1 else 0) + CaptainCount(ps[1..])
  }

  /** A roster as the draft expects it before any pick. */
  ghost predicate Seeded(ps: seq<DraftPlayer>) {
    && (forall i :: 0 <= i < |ps| ==> ps[i].pickNumber == None)
    && (forall i :: 0 <= i < |ps| && ps[i].captain ==> ps[i].captainOf.Some? && ps[i].team == ps[i].captainOf)
    && (forall i :: 0 <= i < |ps| && !ps[i].captain ==> ps[i].team == None && ps[i].captainOf == None)
    && (forall t: TeamId :: exists i :: 0 <= i < |ps| && ps[i].captain && ps[i].captainOf == Some(t))
  }

  /** The two captains head `INITIAL_PLAYERS`, each already on the team they lead. */
  lemma InitialCaptains()
    ensures InitialPlayers[0] == Captain(1, "Cole Dominguez", 2, Gwr)
    ensures InitialPlayers[1] == Captain(2, "Ryan Parker", 6, Rwb)
  {
  }

  /** After the captains come the fourteen undrafted players, ids 3 to 16. */
  lemma InitialPool()
    ensures |InitialPlayers| == 16
    ensures forall i :: 2 <= i < |InitialPlayers| ==>
      !InitialPlayers[i].captain && InitialPlayers[i].id == i + 1 && InitialPlayers[i].team == None
      && InitialPlayers[i].captainOf == None && InitialPlayers[i].pickNumber == None
  {
  }

  /** Every player starts without a pick number; captains sit on the team they lead, everybody else on none; each team has a captain. */
  lemma InitialPlayersSeeded()
    ensures Seeded(InitialPlayers)
  {
    InitialCaptains();
    InitialPool();
    var ps := InitialPlayers;
    assert forall t: TeamId :: ps[if t == Gwr then 0 else 1].captainOf == Some(t);
  }

  /** Exactly two captains, so the draft pool holds `TOTAL_PICKS` players. */
  lemma InitialPlayersCount()
    ensures CaptainCount(InitialPlayers) == 2
    ensures |InitialPlayers| - CaptainCount(InitialPlayers) == TotalPicks
  {
    InitialCaptains();
    InitialPool();
    var ps := InitialPlayers;
    var pool := ps[2..];
    assert forall k :: 0 <= k < |pool| ==> pool[k] == ps[k + 2];
    assert CaptainCount(pool) == 0;
    assert ps[1..][1..] == pool;
    assert CaptainCount(ps[1..]) == 1;
  }

  /** Player ids run from 1 to 16, so no two players share one. */
  lemma InitialIdsDistinct()
    ensures forall i :: 0 <= i < |InitialPlayers| ==> InitialPlayers[i].id == i + 1
    ensures forall i, j :: 0 <= i < j < |InitialPlayers| ==> InitialPlayers[i].id != InitialPlayers[j].id
  {
    InitialCaptains();
    InitialPool();
  }

  /** The captains of `INITIAL_PLAYERS` are the ones the `TEAMS` table names. */
  lemma InitialCaptainsMatchTeams()
    ensures forall i :: 0 <= i < |InitialPlayers| && InitialPlayers[i].captain ==>
      InitialPlayers[i].captainOf.Some? && InitialPlayers[i].name == TeamCaptain(InitialPlayers[i].captainOf.value)
  {
    InitialCaptains();
    InitialPool();
  }

  /** Both invariants a draft state keeps: the coin flip and the first team are set together, and one log entry per numbered pick. */
  ghost predicate Consistent(s: DraftState) {
    && (s.coinFlipDone <==> s.firstTeam.Some?)
    && |s.log| == |set i | 0 <= i < |s.players| && s.players[i].pickNumber.Some?|
  }

  /**
   * `getInitialDraftState`: a copy of `INITIAL_PLAYERS` (the spread copy of each
   * record is the same value), an empty log and no coin flip.
   */
  function InitialDraftState(): (s: DraftState)
    ensures s.players == InitialPlayers
    ensures s.log == [] && s.firstTeam == None && !s.coinFlipDone
  {
    DraftState(InitialPlayers, [], None, false)
  }

  /** Both draft invariants hold in the starting state, and its roster is seeded. */
  lemma InitialDraftStateConsistent()
    ensures Consistent(InitialDraftState())
    ensures Seeded(InitialDraftState().players)
  {
    InitialPlayersSeeded();
    InitialPool();
    var s := InitialDraftState();
    assert (set i | 0 <= i < |s.players| && s.players[i].pickNumber.Some?) == {};
  }

  /** The team that is not `t` (`secondTeam`). */
  function OtherTeam(t: TeamId): (r: TeamId)
    ensures r != t
    ensures r == Rwb <==> t == Gwr
  {
    match t
    case Rwb => Gwr
    case Gwr => Rwb
  }

  /** `getCurrentPickTeam`: pick number `draftedCount + 1` goes to the first team when odd, to the other team when even. */
  function CurrentPickTeam(draftedCount: nat, firstTeam: TeamId): (r: TeamId)
    ensures r == firstTeam <==> draftedCount % 2 == 0
    ensures r == OtherTeam(firstTeam) <==> draftedCount % 2 == 1
  {
    var pickNumber := draftedCount + 1;
    var secondTeam := OtherTeam(firstTeam);
    if pickNumber % 2 == 1 then firstTeam else secondTeam
  }

  /** No snake: consecutive picks always go to different teams. */
  lemma PicksAlternate(c: nat, f: TeamId)
    ensures CurrentPickTeam(c + 1, f) != CurrentPickTeam(c, f)
    ensures CurrentPickTeam(c + 2, f) == CurrentPickTeam(c, f)
  {
  }

  /** How many of the picks `0 .. n - 1` go to team `t`. */
  function PicksFor(t: TeamId, f: TeamId, n: nat): (k: nat)
    ensures k <= n
  {
    if n == 0 then 0 else PicksFor(t, f, n - 1) + (if CurrentPickTeam(n - 1, f) == t then 1 else 0)
  }

  lemma {:induction false} PicksSplitEvenly(t: TeamId, f: TeamId, k: nat)
    ensures PicksFor(t, f, 2 * k) == k
  {
    if k > 0 {
      PicksSplitEvenly(t, f, k - 1);
      PicksAlternate(2 * k - 2, f);
      assert 2 * k - 1 == (2 * k - 2) + 1;
    }
  }

  /** Over the whole draft each team makes exactly seven picks, whichever team picks first. */
  lemma EachTeamPicksSeven(t: TeamId, f: TeamId)
    ensures PicksFor(t, f, TotalPicks) == 7
  {
    PicksSplitEvenly(t, f, 7);
  }
}
