/**
 * The free-assignment draft board page (src/app/draft/page.tsx): a player list,
 * the player currently selected and a newest-first log. A selected player is
 * assigned to any team by hand; any drafted player can be sent back to the pool.
 */
module DraftBoard {
  import opened Wrappers
  import Seqs

  /** A player of the roster as the board holds it (`Player` of src/data/players.ts); `team` is a team name or null. */
  datatype Player = Player(id: int, name: string, handicap: int, team: Option<string>, captain: bool)

  /** One line of the draft log: a pick, or a player sent back to the pool. The wording of the line is left out. */
  datatype LogEntry = Drafted(team: string, player: string) | Returned(player: string)

  predicate IsAvailable(p: Player) { p.team == None }

  predicate IsDrafted(p: Player) { p.team != None }

  /** `availablePlayers`: the players with no team, in list order. */
  function AvailablePlayers(ps: seq<Player>): (r: seq<Player>)
    ensures forall p :: p in r <==> p in ps && p.team == None
  {
    Seqs.Filter(ps, IsAvailable)
  }

  /** `draftedPlayers`: the players on some team, in list order. */
  function DraftedPlayers(ps: seq<Player>): (r: seq<Player>)
    ensures forall p :: p in r <==> p in ps && p.team != None
  {
    Seqs.Filter(ps, IsDrafted)
  }

  /** The two panels split the list: every player is in exactly one of them, each keeps list order. */
  lemma AvailableDraftedPartition(ps: seq<Player>)
    ensures multiset(AvailablePlayers(ps)) + multiset(DraftedPlayers(ps)) == multiset(ps)
    ensures |AvailablePlayers(ps)| + |DraftedPlayers(ps)| == |ps|
    ensures forall p :: !(p in AvailablePlayers(ps) && p in DraftedPlayers(ps))
    ensures Seqs.IsSubsequence(AvailablePlayers(ps), ps) && Seqs.IsSubsequence(DraftedPlayers(ps), ps)
  {
    Seqs.FilterPartition(ps, IsAvailable, IsDrafted);
    Seqs.FilterIsSubsequence(ps, IsAvailable);
    Seqs.FilterIsSubsequence(ps, IsDrafted);
  }

  /** `prev.map(p => p.id === id ? { ...p, team } : p)`: every player with that id gets `team`, nobody else changes. */
  function WithTeam(ps: seq<Player>, id: int, team: Option<string>): (r: seq<Player>)
    ensures |r| == |ps|
    ensures forall i :: 0 <= i < |ps| ==> r[i] == if ps[i].id == id then ps[i].(team := team) else ps[i]
  {
    if ps == [] then []
    else [if ps[0].id == id then ps[0].(team := team) else ps[0]] + WithTeam(ps[1..], id, team)
  }

  /** `playerList.find(p => p.id === playerId)`: the first player with that id, if any. */
  function FindById(ps: seq<Player>, id: int): (r: Option<Player>)
    ensures r == None <==> forall i :: 0 <= i < |ps| ==> ps[i].id != id
    ensures r.Some? ==> r.value.id == id
    ensures r.Some? ==> exists i :: 0 <= i < |ps| && ps[i] == r.value && (forall j :: 0 <= j < i ==> ps[j].id != id)
  {
    if ps == [] then None
    else if ps[0].id == id then Some(ps[0])
    else
      var r := FindById(ps[1..], id);
      if r.Some? then
        var i :| 0 <= i < |ps[1..]| && ps[1..][i] == r.value && (forall j :: 0 <= j < i ==> ps[1..][j].id != id);
        assert ps[i + 1] == r.value;
        r
      else r
  }

  /** The players of `ps` whose id is not `id`, in order. */
  function WithoutId(ps: seq<Player>, id: int): (r: seq<Player>)
    ensures forall p :: p in r <==> p in ps && p.id != id
  {
    if ps == [] then []
    else (if ps[0].id != id then [ps[0]] else []) + WithoutId(ps[1..], id)
  }

  lemma WithoutIdCons(x: Player, ps: seq<Player>, id: int)
    ensures WithoutId([x] + ps, id) == if x.id != id then [x] + WithoutId(ps, id) else WithoutId(ps, id)
  {
    assert ([x] + ps)[1..] == ps;
  }

  /** Drafting the players with an id takes exactly them out of the available pool and leaves the pool's order alone. */
  lemma {:induction false} AssignLeavesPool(ps: seq<Player>, id: int, team: string)
    ensures AvailablePlayers(WithTeam(ps, id, Some(team))) == WithoutId(AvailablePlayers(ps), id)
  {
    if ps != [] {
      var rest := WithTeam(ps[1..], id, Some(team));
      var h := if ps[0].id == id then ps[0].(team := Some(team)) else ps[0];
      assert WithTeam(ps, id, Some(team)) == [h] + rest;
      assert ps == [ps[0]] + ps[1..];
      AssignLeavesPool(ps[1..], id, team);
      Seqs.FilterCons(h, rest, IsAvailable);
      Seqs.FilterCons(ps[0], ps[1..], IsAvailable);
      if IsAvailable(ps[0]) {
        WithoutIdCons(ps[0], AvailablePlayers(ps[1..]), id);
      }
    }
  }

  /** Sending the players with an id back takes exactly them off the team panels. */
  lemma {:induction false} UndoLeavesTeams(ps: seq<Player>, id: int)
    ensures DraftedPlayers(WithTeam(ps, id, None)) == WithoutId(DraftedPlayers(ps), id)
  {
    if ps != [] {
      var rest := WithTeam(ps[1..], id, None);
      var h := if ps[0].id == id then ps[0].(team := None) else ps[0];
      assert WithTeam(ps, id, None) == [h] + rest;
      assert ps == [ps[0]] + ps[1..];
      UndoLeavesTeams(ps[1..], id);
      Seqs.FilterCons(h, rest, IsDrafted);
      Seqs.FilterCons(ps[0], ps[1..], IsDrafted);
      if IsDrafted(ps[0]) {
        WithoutIdCons(ps[0], DraftedPlayers(ps[1..]), id);
      }
    }
  }

  /** Undoing a pick of players that were in the pool restores the list exactly. */
  lemma UndoReversesAssign(ps: seq<Player>, id: int, team: string)
    requires forall i :: 0 <= i < |ps| && ps[i].id == id ==> ps[i].team == None
    ensures WithTeam(WithTeam(ps, id, Some(team)), id, None) == ps
  {
  }

  /** `initialPlayers.map(p => ({ ...p, team: null }))`: every player unassigned, captains included. */
  function ClearTeams(ps: seq<Player>): (r: seq<Player>)
    ensures |r| == |ps|
    ensures forall i :: 0 <= i < |ps| ==> r[i] == ps[i].(team := None)
  {
    if ps == [] then [] else [ps[0].(team := None)] + ClearTeams(ps[1..])
  }

  /** A reset board is not the starting roster when that roster seeds anybody onto a team (the captains). */
  lemma ResetUnseatsCaptains(roster: seq<Player>, i: nat)
    requires i < |roster| && roster[i].team != None
    ensures ClearTeams(roster) != roster
    ensures AvailablePlayers(ClearTeams(roster)) == ClearTeams(roster)
  {
    assert ClearTeams(roster)[i] != roster[i];
    Seqs.FilterAll(ClearTeams(roster), IsAvailable);
  }

  /** Nothing but team assignments distinguishes `ps` from `roster`. */
  ghost predicate SamePlayers(ps: seq<Player>, roster: seq<Player>) {
    |ps| == |roster| && forall i :: 0 <= i < |ps| ==> ps[i].(team := None) == roster[i].(team := None)
  }

  class Board {
    /** The roster the page starts from and resets to (`initialPlayers`). */
    const roster: seq<Player>
    var playerList: seq<Player>
    var selected: Option<Player>
    var log: seq<LogEntry>

    /** The board only moves players between teams and the pool: it never adds, drops or edits a player. */
    ghost predicate Valid()
      reads this
    {
      SamePlayers(playerList, roster)
    }

    constructor (roster: seq<Player>)
      ensures Valid()
      ensures this.roster == roster && playerList == roster && selected == None && log == []
    {
      this.roster := roster;
      playerList := roster;
      selected := None;
      log := [];
    }

    /** `assignToTeam`: with a player selected, put every player with its id on `team`, log the pick first, clear the selection. */
    method AssignToTeam(team: string)
      requires Valid()
      modifies this
      ensures Valid()
      ensures old(selected) == None ==> playerList == old(playerList) && log == old(log) && selected == None
      ensures old(selected).Some? ==>
        && playerList == WithTeam(old(playerList), old(selected).value.id, Some(team))
        && log == [Drafted(team, old(selected).value.name)] + old(log)
        && selected == None
    {
      if selected == None {
        return;
      }
      var p := selected.value;
      playerList := WithTeam(playerList, p.id, Some(team));
      log := [Drafted(team, p.name)] + log;
      selected := None;
    }

    /** `undoDraft`: for an id on the board, put its players back in the pool and log it first; otherwise do nothing. */
    method UndoDraft(playerId: int)
      requires Valid()
      modifies this
      ensures Valid()
      ensures FindById(old(playerList), playerId) == None ==> playerList == old(playerList) && log == old(log)
      ensures FindById(old(playerList), playerId).Some? ==>
        && playerList == WithTeam(old(playerList), playerId, None)
        && log == [Returned(FindById(old(playerList), playerId).value.name)] + old(log)
      ensures selected == old(selected)
    {
      var player := FindById(playerList, playerId);
      if player == None {
        return;
      }
      playerList := WithTeam(playerList, playerId, None);
      log := [Returned(player.value.name)] + log;
    }

    /** `resetDraft`: the roster with nobody on a team, an empty log, no selection. */
    method ResetDraft()
      requires Valid()
      modifies this
      ensures Valid()
      ensures playerList == ClearTeams(roster) && log == [] && selected == None
    {
      playerList := ClearTeams(roster);
      log := [];
      selected := None;
    }

    /** A click on an available player: the selected one is deselected, any other becomes the selection. */
    method ToggleSelection(player: Player)
      requires Valid()
      modifies this
      ensures Valid()
      ensures playerList == old(playerList) && log == old(log)
      ensures old(selected).Some? && old(selected).value.id == player.id ==> selected == None
      ensures !(old(selected).Some? && old(selected).value.id == player.id) ==> selected == Some(player)
    {
      if selected.Some? && selected.value.id == player.id {
        selected := None;
      } else {
        selected := Some(player);
      }
    }
  }
}
