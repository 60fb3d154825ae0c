/**
 * The team leaderboard page (src/app/dashboard/page.tsx): team sync from a saved
 * draft, single-field matchup edits behind an edit/save/cancel buffer, the
 * choices offered for a matchup slot, the 10.5-point win check, the roster and
 * individual orderings and the result badge.
 */
module Dashboard {
  import opened Wrappers
  import Seqs
  import Sorting

  /** The leaderboard's `TeamId`: `'rp' | 'dom'`. */
  datatype Side = Rp | Dom

  /** A matchup's `winner`: a team, `'halved'`, or null while not played. */
  datatype Decision = Undecided | Won(team: Side) | Halved

  /** A matchup; an empty string is an unfilled slot. */
  datatype Matchup = Matchup(rpPlayers: seq<string>, domPlayers: seq<string>, result: string, winner: Decision)

  /** A round of the tournament; its scheduling fields (day, time, tee, yardage) are display-only and left out. */
  datatype Round = Round(id: int, name: string, course: string, format: string, pointsAvailable: int, matchups: seq<Matchup>)

  datatype LbPlayer = LbPlayer(id: int, name: string, handicap: int, team: Option<Side>, isCaptain: bool)

  /** `LeaderboardState`. */
  datatype LeaderboardState = LeaderboardState(players: seq<LbPlayer>, rounds: seq<Round>)

  /** One player of a saved draft: a name and its `team` value, `None` when null or missing. */
  datatype DraftEntry = DraftEntry(name: string, team: Option<string>)

  function OtherSide(side: Side): (r: Side)
    ensures r != side
  {
    match side
    case Rp => Dom
    case Dom => Rp
  }

  // ---------------------------------------------------------------------------
  // Syncing teams from the saved draft
  // ---------------------------------------------------------------------------

  /** A JavaScript-truthy team value: present and not the empty string. */
  predicate Truthy(v: Option<string>) {
    v.Some? && v.value != ""
  }

  /** The draft's `'rwb'` is the leaderboard's `'rp'`, `'gwr'` is `'dom'`, anything else clears the team. */
  function LeaderboardTeam(v: string): (r: Option<Side>)
    ensures r == Some(Rp) <==> v == "rwb"
    ensures r == Some(Dom) <==> v == "gwr"
    ensures r == None <==> v != "rwb" && v != "gwr"
  {
    if v == "rwb" then Some(Rp) else if v == "gwr" then Some(Dom) else None
  }

  /** `players.find(p => p.name === name)`, as the index of the first player with that name. */
  function FindByName(ps: seq<LbPlayer>, name: string): (r: Option<nat>)
    ensures r.Some? ==> r.value < |ps| && ps[r.value].name == name
    ensures r.Some? ==> forall j :: 0 <= j < r.value ==> ps[j].name != name
    ensures r == None ==> forall j :: 0 <= j < |ps| ==> ps[j].name != name
  {
    if ps == [] then None
    else if ps[0].name == name then Some(0)
    else
      var r := FindByName(ps[1..], name);
      if r.Some? then Some(r.value + 1) else None
  }

  /** One pass of the sync loop: the first player named like the entry takes its mapped team, if the entry's team is truthy. */
  function SyncOne(ps: seq<LbPlayer>, dp: DraftEntry): (r: seq<LbPlayer>)
    ensures |r| == |ps|
    ensures FindByName(ps, dp.name) == None || !Truthy(dp.team) ==> r == ps
    ensures forall i :: 0 <= i < |ps| && Some(i) != FindByName(ps, dp.name) ==> r[i] == ps[i]
    ensures forall i :: 0 <= i < |ps| ==> r[i].(team := None) == ps[i].(team := None)
    ensures forall i :: 0 <= i < |ps| && Some(i) == FindByName(ps, dp.name) && Truthy(dp.team) ==>
      r[i].team == LeaderboardTeam(dp.team.value)
  {
    match FindByName(ps, dp.name)
    case Some(k) => if Truthy(dp.team) then ps[k := ps[k].(team := LeaderboardTeam(dp.team.value))] else ps
    case None => ps
  }

  /** The sync loop run over every entry of the draft, in order. */
  function SyncTeams(ps: seq<LbPlayer>, draft: seq<DraftEntry>): (r: seq<LbPlayer>)
    ensures |r| == |ps|
    ensures forall i :: 0 <= i < |ps| ==> r[i].(team := None) == ps[i].(team := None)
    ensures forall i :: 0 <= i < |ps| && (forall j :: 0 <= j < |draft| ==> draft[j].name != ps[i].name) ==> r[i] == ps[i]
    decreases |draft|
  {
    if draft == [] then ps
    else SyncOne(SyncTeams(ps, draft[..|draft| - 1]), draft[|draft| - 1])
  }

  /** Entry `j` is the last one named `name` with a truthy team. */
  ghost predicate LastTruthyEntry(draft: seq<DraftEntry>, name: string, j: int) {
    && 0 <= j < |draft| && draft[j].name == name && Truthy(draft[j].team)
    && forall k :: j < k < |draft| && draft[k].name == name ==> !Truthy(draft[k].team)
  }

  /** No entry named `name` carries a truthy team. */
  ghost predicate NoTruthyEntry(draft: seq<DraftEntry>, name: string) {
    forall j :: 0 <= j < |draft| && draft[j].name == name ==> !Truthy(draft[j].team)
  }

  /** What the sync keeps from a draft still holds once an entry that does not compete is appended. */
  lemma LastTeamForExtend(front: seq<DraftEntry>, e: DraftEntry, name: string, r: Option<string>)
    requires !(e.name == name && Truthy(e.team))
    requires r == None <==> NoTruthyEntry(front, name)
    requires r.Some? ==> exists j :: LastTruthyEntry(front, name, j) && front[j].team == Some(r.value)
    ensures r == None <==> NoTruthyEntry(front + [e], name)
    ensures r.Some? ==> exists j :: LastTruthyEntry(front + [e], name, j) && (front + [e])[j].team == Some(r.value)
  {
    var d := front + [e];
    assert forall k :: 0 <= k < |front| ==> d[k] == front[k];
    assert NoTruthyEntry(d, name) == NoTruthyEntry(front, name);
    if r.Some? {
      var j :| LastTruthyEntry(front, name, j) && front[j].team == Some(r.value);
      assert LastTruthyEntry(d, name, j);
    }
  }

  /** The team value of the last entry named `name` whose team is truthy: the one that wins the sync. */
  function LastTeamFor(draft: seq<DraftEntry>, name: string): (r: Option<string>)
    ensures r.Some? ==> r.value != ""
    ensures r == None <==> NoTruthyEntry(draft, name)
    ensures r.Some? ==> exists j :: LastTruthyEntry(draft, name, j) && draft[j].team == Some(r.value)
    decreases |draft|
  {
    if draft == [] then None
    else
      var n := |draft| - 1;
      var last := draft[n];
      if last.name == name && Truthy(last.team) then
        assert LastTruthyEntry(draft, name, n);
        Some(last.team.value)
      else
        var r := LastTeamFor(draft[..n], name);
        assert draft == draft[..n] + [last];
        LastTeamForExtend(draft[..n], last, name, r);
        r
  }

  /** `ps` and `qs` are the same players, up to their teams. */
  ghost predicate SameButTeams(ps: seq<LbPlayer>, qs: seq<LbPlayer>) {
    |ps| == |qs| && forall i :: 0 <= i < |ps| ==> ps[i].(team := None) == qs[i].(team := None)
  }

  /** What the sync does to player `i`: set by the last truthy entry with its name, if it is the first player with that name. */
  function SyncedPlayer(ps: seq<LbPlayer>, draft: seq<DraftEntry>, i: nat): LbPlayer
    requires i < |ps|
  {
    var last := LastTeamFor(draft, ps[i].name);
    if FindByName(ps, ps[i].name) == Some(i) && last.Some? then ps[i].(team := LeaderboardTeam(last.value)) else ps[i]
  }

  lemma FindByNameSameButTeams(ps: seq<LbPlayer>, qs: seq<LbPlayer>, name: string)
    requires SameButTeams(ps, qs)
    ensures FindByName(ps, name) == FindByName(qs, name)
  {
    var a, b := FindByName(ps, name), FindByName(qs, name);
    assert forall j :: 0 <= j < |ps| ==> ps[j].name == qs[j].name by {
      forall j | 0 <= j < |ps| ensures ps[j].name == qs[j].name {
        assert ps[j].(team := None).name == qs[j].(team := None).name;
      }
    }
    if a.Some? && b.Some? {
      assert !(a.value < b.value) && !(b.value < a.value);
    }
  }

  /**
   * The sync as a whole: every player keeps everything but the team, and the
   * first player with a name takes the mapped team of the last truthy draft
   * entry with that name; nobody else changes.
   */
  lemma {:induction false} SyncTeamsEffect(ps: seq<LbPlayer>, draft: seq<DraftEntry>)
    ensures |SyncTeams(ps, draft)| == |ps|
    ensures forall i :: 0 <= i < |ps| ==> SyncTeams(ps, draft)[i] == SyncedPlayer(ps, draft, i)
    decreases |draft|
  {
    if draft != [] {
      var prefix, e := draft[..|draft| - 1], draft[|draft| - 1];
      SyncTeamsEffect(ps, prefix);
      var before := SyncTeams(ps, prefix);
      assert SameButTeams(before, ps) by {
        forall i | 0 <= i < |ps| ensures before[i].(team := None) == ps[i].(team := None) {
          assert before[i] == SyncedPlayer(ps, prefix, i);
        }
      }
      FindByNameSameButTeams(before, ps, e.name);
      forall i | 0 <= i < |ps| ensures SyncTeams(ps, draft)[i] == SyncedPlayer(ps, draft, i) {
        assert before[i] == SyncedPlayer(ps, prefix, i);
        if ps[i].name == e.name {
          FindByNameSameButTeams(before, ps, ps[i].name);
        }
      }
    }
  }

  /** The sync changes only teams, so running it twice gives what running it once gives. */
  lemma SyncTeamsIdempotent(ps: seq<LbPlayer>, draft: seq<DraftEntry>)
    ensures SameButTeams(SyncTeams(ps, draft), ps)
    ensures SyncTeams(SyncTeams(ps, draft), draft) == SyncTeams(ps, draft)
  {
    var once := SyncTeams(ps, draft);
    SyncTeamsEffect(ps, draft);
    assert SameButTeams(once, ps) by {
      forall i | 0 <= i < |ps| ensures once[i].(team := None) == ps[i].(team := None) {
        assert once[i] == SyncedPlayer(ps, draft, i);
      }
    }
    SyncTeamsEffect(once, draft);
    var twice := SyncTeams(once, draft);
    forall i | 0 <= i < |ps| ensures twice[i] == once[i] {
      assert once[i] == SyncedPlayer(ps, draft, i);
      assert once[i].name == ps[i].name by {
        assert once[i].(team := None).name == ps[i].(team := None).name;
      }
      FindByNameSameButTeams(once, ps, ps[i].name);
    }
  }

  /** The `for (const dp of draftState.players)` loop, assigning `player.team` in place. */
  method ApplyDraftTeams(players: seq<LbPlayer>, draft: seq<DraftEntry>) returns (next: seq<LbPlayer>)
    ensures next == SyncTeams(players, draft)
    ensures |next| == |players| && forall i :: 0 <= i < |players| ==> next[i] == SyncedPlayer(players, draft, i)
  {
    next := players;
    var k := 0;
    while k < |draft|
      invariant 0 <= k <= |draft|
      invariant next == SyncTeams(players, draft[..k])
    {
      var dp := draft[k];
      var player := FindByName(next, dp.name);
      if player.Some? && Truthy(dp.team) {
        next := next[player.value := next[player.value].(team := LeaderboardTeam(dp.team.value))];
      }
      assert draft[..k + 1][..k] == draft[..k];
      k := k + 1;
    }
    assert draft[..k] == draft;
    SyncTeamsEffect(players, draft);
  }

  /** `handleSyncDraft` on the edit buffer: without a saved draft or its `players` nothing changes; otherwise only teams do. */
  function SyncFromDraft(s: LeaderboardState, draft: Option<seq<DraftEntry>>): (r: LeaderboardState)
    ensures r.rounds == s.rounds
    ensures draft == None ==> r == s
    ensures SameButTeams(r.players, s.players)
  {
    match draft
    case None => s
    case Some(d) =>
      SyncTeamsIdempotent(s.players, d);
      s.(players := SyncTeams(s.players, d))
  }

  /** Pressing "Sync Teams from Draft" twice has the effect of pressing it once. */
  lemma SyncFromDraftIdempotent(s: LeaderboardState, draft: Option<seq<DraftEntry>>)
    ensures SyncFromDraft(SyncFromDraft(s, draft), draft) == SyncFromDraft(s, draft)
  {
    if draft.Some? {
      SyncTeamsIdempotent(s.players, draft.value);
    }
  }

  // ---------------------------------------------------------------------------
  // Single-field matchup edits
  // ---------------------------------------------------------------------------

  /** The player slots of one side of a matchup. */
  function Slots(m: Matchup, side: Side): seq<string> {
    match side
    case Rp => m.rpPlayers
    case Dom => m.domPlayers
  }

  predicate ValidMatchup(s: LeaderboardState, ri: nat, mi: nat) {
    ri < |s.rounds| && mi < |s.rounds[ri].matchups|
  }

  predicate ValidSlot(s: LeaderboardState, ri: nat, mi: nat, side: Side, si: nat) {
    ValidMatchup(s, ri, mi) && si < |Slots(s.rounds[ri].matchups[mi], side)|
  }

  /** Everything but the matchups of a round. */
  function Header(r: Round): Round {
    r.(matchups := [])
  }

  /** `r` is `s` with at most matchup `mi` of round `ri` replaced: same players, rounds, round fields and other matchups. */
  ghost predicate OnlyMatchupChanged(s: LeaderboardState, r: LeaderboardState, ri: nat, mi: nat) {
    && r.players == s.players
    && |r.rounds| == |s.rounds|
    && (forall i :: 0 <= i < |s.rounds| ==>
          Header(r.rounds[i]) == Header(s.rounds[i]) && |r.rounds[i].matchups| == |s.rounds[i].matchups|)
    && (forall i, j :: 0 <= i < |s.rounds| && 0 <= j < |s.rounds[i].matchups| && (i != ri || j != mi) ==>
          r.rounds[i].matchups[j] == s.rounds[i].matchups[j])
  }

  function WithMatchup(s: LeaderboardState, ri: nat, mi: nat, m: Matchup): (r: LeaderboardState)
    requires ValidMatchup(s, ri, mi)
    ensures ValidMatchup(r, ri, mi) && r.rounds[ri].matchups[mi] == m
    ensures OnlyMatchupChanged(s, r, ri, mi)
  {
    var round := s.rounds[ri];
    s.(rounds := s.rounds[ri := round.(matchups := round.matchups[mi := m])])
  }

  /** `updateMatchupPlayer`: slot `si` of `side` in matchup `mi` of round `ri` becomes `name`; nothing else changes. */
  function SetMatchupPlayer(s: LeaderboardState, ri: nat, mi: nat, side: Side, si: nat, name: string): (r: LeaderboardState)
    requires ValidSlot(s, ri, mi, side, si)
    ensures OnlyMatchupChanged(s, r, ri, mi) && ValidSlot(r, ri, mi, side, si)
    ensures var before, after := s.rounds[ri].matchups[mi], r.rounds[ri].matchups[mi];
      && Slots(after, side) == Slots(before, side)[si := name]
      && Slots(after, OtherSide(side)) == Slots(before, OtherSide(side))
      && after.result == before.result && after.winner == before.winner
  {
    var m := s.rounds[ri].matchups[mi];
    var m' := match side
      case Rp => m.(rpPlayers := m.rpPlayers[si := name])
      case Dom => m.(domPlayers := m.domPlayers[si := name]);
    WithMatchup(s, ri, mi, m')
  }

  /** `updateMatchupWinner`: only that matchup's `winner` changes. */
  function SetMatchupWinner(s: LeaderboardState, ri: nat, mi: nat, w: Decision): (r: LeaderboardState)
    requires ValidMatchup(s, ri, mi)
    ensures OnlyMatchupChanged(s, r, ri, mi) && ValidMatchup(r, ri, mi)
    ensures r.rounds[ri].matchups[mi].winner == w
    ensures r.rounds[ri].matchups[mi].(winner := Undecided) == s.rounds[ri].matchups[mi].(winner := Undecided)
  {
    WithMatchup(s, ri, mi, s.rounds[ri].matchups[mi].(winner := w))
  }

  /** `updateMatchupResult`: only that matchup's `result` text changes. */
  function SetMatchupResult(s: LeaderboardState, ri: nat, mi: nat, text: string): (r: LeaderboardState)
    requires ValidMatchup(s, ri, mi)
    ensures OnlyMatchupChanged(s, r, ri, mi) && ValidMatchup(r, ri, mi)
    ensures r.rounds[ri].matchups[mi].result == text
    ensures r.rounds[ri].matchups[mi].(result := "") == s.rounds[ri].matchups[mi].(result := "")
  {
    WithMatchup(s, ri, mi, s.rounds[ri].matchups[mi].(result := text))
  }

  // ---------------------------------------------------------------------------
  // Players offered for a matchup slot
  // ---------------------------------------------------------------------------

  /** `players.filter(p => p.team === side).map(p => p.name)`. */
  function TeamNames(ps: seq<LbPlayer>, side: Side): (r: seq<string>)
    ensures |r| <= |ps|
    ensures forall n :: n in r <==> exists i :: 0 <= i < |ps| && ps[i].team == Some(side) && ps[i].name == n
  {
    if ps == [] then []
    else
      var rest := TeamNames(ps[1..], side);
      assert forall i :: 1 <= i < |ps| ==> ps[i] == ps[1..][i - 1];
      assert forall i :: 0 <= i < |ps[1..]| ==> ps[1..][i] == ps[i + 1];
      if ps[0].team == Some(side) then [ps[0].name] + rest else rest
  }

  /** `n` fills one of the slots `names` of matchup number `m`, other than slot `si` of matchup `mi`. */
  ghost predicate InOtherSlot(names: seq<string>, m: int, mi: int, si: int, n: string) {
    n != "" && exists k :: 0 <= k < |names| && names[k] == n && (m != mi || k != si)
  }

  /** `n` fills some slot of `side` in `ms` other than slot `si` of matchup `mi`. */
  ghost predicate UsedElsewhere(ms: seq<Matchup>, side: Side, mi: int, si: int, n: string) {
    exists m :: 0 <= m < |ms| && InOtherSlot(Slots(ms[m], side), m, mi, si, n)
  }

  /** The non-empty names among the slots `names` of matchup number `m`, skipping slot `si` when `m` is `mi`. */
  function SlotNamesUsed(names: seq<string>, m: int, mi: int, si: int): set<string>
    decreases |names|
  {
    if names == [] then {}
    else
      var k := |names| - 1;
      SlotNamesUsed(names[..k], m, mi, si) + (if names[k] != "" && (m != mi || k != si) then {names[k]} else {})
  }

  /** The names collected into `used` from the matchups `ms`. */
  function UsedNames(ms: seq<Matchup>, side: Side, mi: int, si: int): set<string>
    decreases |ms|
  {
    if ms == [] then {}
    else
      var m := |ms| - 1;
      UsedNames(ms[..m], side, mi, si) + SlotNamesUsed(Slots(ms[m], side), m, mi, si)
  }

  lemma {:induction false} SlotNamesUsedMember(names: seq<string>, m: int, mi: int, si: int, n: string)
    ensures n in SlotNamesUsed(names, m, mi, si) <==> InOtherSlot(names, m, mi, si, n)
    decreases |names|
  {
    if names != [] {
      var k := |names| - 1;
      SlotNamesUsedMember(names[..k], m, mi, si, n);
      if InOtherSlot(names[..k], m, mi, si, n) {
        var j :| 0 <= j < k && names[..k][j] == n && (m != mi || j != si);
        assert names[j] == n;
      }
      if InOtherSlot(names, m, mi, si, n) {
        var j :| 0 <= j < |names| && names[j] == n && (m != mi || j != si);
        if j < k {
          assert names[..k][j] == n;
        }
      }
    }
  }

  lemma {:induction false} UsedNamesMember(ms: seq<Matchup>, side: Side, mi: int, si: int, n: string)
    ensures n in UsedNames(ms, side, mi, si) <==> UsedElsewhere(ms, side, mi, si, n)
    decreases |ms|
  {
    if ms != [] {
      var m := |ms| - 1;
      UsedNamesMember(ms[..m], side, mi, si, n);
      SlotNamesUsedMember(Slots(ms[m], side), m, mi, si, n);
      if UsedElsewhere(ms[..m], side, mi, si, n) {
        var a :| 0 <= a < m && InOtherSlot(Slots(ms[..m][a], side), a, mi, si, n);
        assert ms[a] == ms[..m][a];
      }
      if UsedElsewhere(ms, side, mi, si, n) {
        var a :| 0 <= a < |ms| && InOtherSlot(Slots(ms[a], side), a, mi, si, n);
        if a < m {
          assert ms[..m][a] == ms[a];
        }
      }
    }
  }

  /** The inner `forEach` of `getAvailable`: the names of one matchup's slots that count as taken. */
  method CollectSlotNames(names: seq<string>, m: int, mi: int, si: int) returns (found: set<string>)
    ensures found == SlotNamesUsed(names, m, mi, si)
  {
    found := {};
    var sIdx := 0;
    while sIdx < |names|
      invariant 0 <= sIdx <= |names|
      invariant found == SlotNamesUsed(names[..sIdx], m, mi, si)
    {
      if names[sIdx] != "" && (m != mi || sIdx != si) {
        found := found + {names[sIdx]};
      }
      assert names[..sIdx + 1][..sIdx] == names[..sIdx];
      sIdx := sIdx + 1;
    }
    assert names[..sIdx] == names;
  }

  /** The outer `forEach` of `getAvailable`: the names held by the side's slots of a round, the edited slot excepted. */
  method CollectUsedNames(ms: seq<Matchup>, side: Side, mi: int, si: int) returns (used: set<string>)
    ensures used == UsedNames(ms, side, mi, si)
  {
    used := {};
    var mIdx := 0;
    while mIdx < |ms|
      invariant 0 <= mIdx <= |ms|
      invariant used == UsedNames(ms[..mIdx], side, mi, si)
    {
      var found := CollectSlotNames(Slots(ms[mIdx], side), mIdx, mi, si);
      used := used + found;
      assert ms[..mIdx + 1][..mIdx] == ms[..mIdx];
      mIdx := mIdx + 1;
    }
    assert ms[..mIdx] == ms;
  }

  /** `teamNames.filter(n => !used.has(n))`. */
  function Unused(names: seq<string>, used: set<string>): (r: seq<string>)
    ensures Seqs.IsSubsequence(r, names)
    ensures forall n :: n in r <==> n in names && n !in used
    ensures forall n :: multiset(r)[n] == if n in used then 0 else multiset(names)[n]
  {
    var keep := (n: string) => n !in used;
    Seqs.FilterIsSubsequence(names, keep);
    UnusedMultiplicity(names, used, keep);
    Seqs.Filter(names, keep)
  }

  /** Filtering out the used names keeps every other name as often as it occurs, and drops every used one. */
  lemma UnusedMultiplicity(names: seq<string>, used: set<string>, keep: string -> bool)
    requires forall n :: keep(n) == (n !in used)
    ensures forall n :: multiset(Seqs.Filter(names, keep))[n] == if n in used then 0 else multiset(names)[n]
  {
    var drop := (n: string) => n in used;
    var kept, dropped := Seqs.Filter(names, keep), Seqs.Filter(names, drop);
    Seqs.FilterPartition(names, keep, drop);
    forall n ensures multiset(kept)[n] == if n in used then 0 else multiset(names)[n] {
      assert multiset(kept)[n] + multiset(dropped)[n] == multiset(names)[n];
      if n in used {
        assert n !in kept;
      } else {
        assert n !in dropped;
      }
    }
  }

  /**
   * `getAvailable`: the names on team `side`, in roster order, that no other
   * slot of `side` in round `ri` holds; the slot's own current name is not
   * held against it.
   */
  method GetAvailable(cur: LeaderboardState, ri: nat, mi: int, side: Side, si: int) returns (avail: seq<string>)
    requires ri < |cur.rounds|
    ensures Seqs.IsSubsequence(avail, TeamNames(cur.players, side))
    ensures forall n :: n in avail <==>
      n in TeamNames(cur.players, side) && !UsedElsewhere(cur.rounds[ri].matchups, side, mi, si, n)
    ensures forall n ::
      multiset(avail)[n] == if UsedElsewhere(cur.rounds[ri].matchups, side, mi, si, n) then 0 else multiset(TeamNames(cur.players, side))[n]
  {
    var ms := cur.rounds[ri].matchups;
    var used := CollectUsedNames(ms, side, mi, si);
    forall n ensures n in used <==> UsedElsewhere(ms, side, mi, si, n) {
      UsedNamesMember(ms, side, mi, si, n);
    }
    avail := Unused(TeamNames(cur.players, side), used);
  }

  /** The choices of a slot's select: its current name first when `getAvailable` left it out. */
  function SlotOptions(val: string, avail: seq<string>): (r: seq<string>)
    ensures val != "" ==> val in r
    ensures forall n :: n in r <==> n in avail || (n == val && val != "")
    ensures val == "" || val in avail ==> r == avail
    ensures val != "" && val !in avail ==> r == [val] + avail
  {
    if val != "" && val !in avail then [val] + avail else avail
  }

  // ---------------------------------------------------------------------------
  // Win check, orderings and result badge
  // ---------------------------------------------------------------------------

  /** The championship check: Team RP at 10.5 points or more, else Team Dom at 10.5 or more, else nobody. */
  function Winner(rp: real, dom: real): (r: Option<Side>)
    ensures r == Some(Rp) <==> rp >= 10.5
    ensures r == Some(Dom) <==> rp < 10.5 && dom >= 10.5
    ensures r == None <==> rp < 10.5 && dom < 10.5
  {
    if rp >= 10.5 then Some(Rp) else if dom >= 10.5 then Some(Dom) else None
  }

  /** `sortTeam`'s comparator, read as "may come first": a captain comes first, otherwise the lower handicap. */
  predicate CaptainFirst(a: LbPlayer, b: LbPlayer) {
    a.isCaptain || (!b.isCaptain && a.handicap <= b.handicap)
  }

  lemma CaptainFirstIsPreorder()
    ensures Sorting.Total(CaptainFirst) && Sorting.Transitive(CaptainFirst)
  {
  }

  function OnTeam(side: Side): LbPlayer -> bool {
    (p: LbPlayer) => p.team == Some(side)
  }

  /** A sequence ordered by `CaptainFirst` has its captains first and the rest by ascending handicap. */
  lemma CaptainFirstOrder(r: seq<LbPlayer>)
    requires Sorting.SortedBy(r, CaptainFirst)
    ensures forall i, j :: 0 <= i < j < |r| && r[j].isCaptain ==> r[i].isCaptain
    ensures forall i, j :: 0 <= i < j < |r| && !r[i].isCaptain ==> r[i].handicap <= r[j].handicap
  {
    forall i, j | 0 <= i < j < |r| ensures CaptainFirst(r[i], r[j]) {
    }
  }

  /** `sortTeam`: the players of a team, captains first, then by ascending handicap. */
  function SortTeam(ps: seq<LbPlayer>, side: Side): (r: seq<LbPlayer>)
    ensures multiset(r) == multiset(Seqs.Filter(ps, OnTeam(side)))
    ensures forall p :: p in r <==> p in ps && p.team == Some(side)
    ensures forall i, j :: 0 <= i < j < |r| && r[j].isCaptain ==> r[i].isCaptain
    ensures forall i, j :: 0 <= i < j < |r| && !r[i].isCaptain ==> r[i].handicap <= r[j].handicap
  {
    var members := Seqs.Filter(ps, OnTeam(side));
    var r := Sorting.InsertionSort(members, CaptainFirst);
    CaptainFirstIsPreorder();
    Sorting.SortIsOrderedPermutation(members, CaptainFirst);
    CaptainFirstOrder(r);
    forall p ensures p in r <==> p in ps && p.team == Some(side) {
      assert p in r <==> p in multiset(members);
      assert p in members <==> p in ps && OnTeam(side)(p);
    }
    r
  }

  /** What `getPlayerRecord` yields for a player; how it is computed is not part of this model. */
  datatype PlayerRecord = PlayerRecord(w: nat, l: nat, h: nat, pts: real)

  datatype RankedPlayer = RankedPlayer(player: LbPlayer, record: PlayerRecord)

  /** The individual comparator, read as "may come first": more points, then fewer losses, then lower handicap. */
  predicate RanksAhead(a: RankedPlayer, b: RankedPlayer) {
    || a.record.pts > b.record.pts
    || (a.record.pts == b.record.pts && a.record.l < b.record.l)
    || (a.record.pts == b.record.pts && a.record.l == b.record.l && a.player.handicap <= b.player.handicap)
  }

  lemma RanksAheadIsPreorder()
    ensures Sorting.Total(RanksAhead) && Sorting.Transitive(RanksAhead)
  {
  }

  function WithRecords(ps: seq<LbPlayer>, recordOf: string -> PlayerRecord): (r: seq<RankedPlayer>)
    ensures |r| == |ps|
    ensures forall i :: 0 <= i < |ps| ==> r[i] == RankedPlayer(ps[i], recordOf(ps[i].name))
  {
    if ps == [] then [] else [RankedPlayer(ps[0], recordOf(ps[0].name))] + WithRecords(ps[1..], recordOf)
  }

  predicate Assigned(p: LbPlayer) {
    p.team.Some?
  }

  /** The individual leaderboard: every player on a team with their record, best first. */
  function IndividualTable(ps: seq<LbPlayer>, recordOf: string -> PlayerRecord): (r: seq<RankedPlayer>)
    ensures |r| == |Seqs.Filter(ps, Assigned)|
    ensures multiset(r) == multiset(WithRecords(Seqs.Filter(ps, Assigned), recordOf))
    ensures forall x :: x in r <==> x.player in ps && x.player.team.Some? && x.record == recordOf(x.player.name)
    ensures forall i, j :: 0 <= i < j < |r| ==> RanksAhead(r[i], r[j])
  {
    var rows := WithRecords(Seqs.Filter(ps, Assigned), recordOf);
    RanksAheadIsPreorder();
    Sorting.SortIsOrderedPermutation(rows, RanksAhead);
    var r := Sorting.InsertionSort(rows, RanksAhead);
    assert forall x :: x in r <==> x in multiset(rows);
    assert forall x :: x in rows <==> x.player in ps && x.player.team.Some? && x.record == recordOf(x.player.name) by {
      var members := Seqs.Filter(ps, Assigned);
      forall x ensures x in rows <==> x.player in members && x.record == recordOf(x.player.name) {
        if x in rows {
          var i :| 0 <= i < |rows| && rows[i] == x;
        }
        if x.player in members && x.record == recordOf(x.player.name) {
          var i :| 0 <= i < |members| && members[i] == x.player;
          assert rows[i] == x;
        }
      }
    }
    r
  }

  /** Some slot holds a name. */
  function AnyFilled(names: seq<string>): (b: bool)
    ensures b <==> exists k :: 0 <= k < |names| && names[k] != ""
  {
    if names == [] then false
    else
      assert forall k :: 1 <= k < |names| ==> names[k] == names[1..][k - 1];
      names[0] != "" || AnyFilled(names[1..])
  }

  /** `ResultBadge`'s label. */
  function BadgeLabel(m: Matchup): (badge: string)
    ensures m.winner == Undecided ==>
      badge == if (exists k :: 0 <= k < |m.rpPlayers| && m.rpPlayers[k] != "")
                  || (exists k :: 0 <= k < |m.domPlayers| && m.domPlayers[k] != "")
               then "Pending" else "---"
    ensures m.winner != Undecided && m.result != "" ==> badge == m.result
    ensures m.winner == Halved && m.result == "" ==> badge == "AS"
    ensures m.winner == Won(Rp) && m.result == "" ==> badge == "RP"
    ensures m.winner == Won(Dom) && m.result == "" ==> badge == "DOM"
  {
    if m.winner == Undecided then
      if AnyFilled(m.rpPlayers) || AnyFilled(m.domPlayers) then "Pending" else "---"
    else if m.result != "" then m.result
    else if m.winner == Halved then "AS"
    else if m.winner == Won(Rp) then "RP"
    else "DOM"
  }

  // ---------------------------------------------------------------------------
  // The page: saved state, edit buffer and edit mode
  // ---------------------------------------------------------------------------

  /** What the page starts from: the saved leaderboard, else the initial one with teams synced from the saved draft. */
  function Hydrated(saved: Option<LeaderboardState>, initial: LeaderboardState, draft: Option<seq<DraftEntry>>): (r: LeaderboardState)
    ensures saved.Some? ==> r == saved.value
    ensures saved == None ==> r == SyncFromDraft(initial, draft)
  {
    match saved
    case Some(s) => s
    case None => SyncFromDraft(initial, draft)
  }

  class LeaderboardPage {
    var state: LeaderboardState
    var editState: LeaderboardState
    var editMode: bool

    /** Outside edit mode the buffer holds exactly the saved state. */
    ghost predicate Valid()
      reads this
    {
      !editMode ==> editState == state
    }

    /** `current`: the page shows the edit buffer exactly while in edit mode. */
    function Current(): (s: LeaderboardState)
      reads this
      ensures editMode ==> s == editState
      ensures !editMode ==> s == state
      ensures Valid() ==> s == editState
    {
      if editMode then editState else state
    }

    /** The load effect; `saved` and `draft` are what local storage held, `initial` is `createInitialState()`. */
    constructor (saved: Option<LeaderboardState>, initial: LeaderboardState, draft: Option<seq<DraftEntry>>)
      ensures Valid()
      ensures state == Hydrated(saved, initial, draft) && editState == state && !editMode
    {
      var loaded := initial;
      if saved.Some? {
        loaded := saved.value;
      } else if draft.Some? {
        var players := ApplyDraftTeams(initial.players, draft.value);
        loaded := initial.(players := players);
      }
      state := loaded;
      editState := loaded;
      editMode := false;
    }

    /** `handleEnterEdit`. */
    method EnterEdit()
      modifies this
      ensures Valid()
      ensures editMode && editState == old(state) && state == old(state)
    {
      editState := state;
      editMode := true;
    }

    /** `handleSave`: the buffer becomes the saved state (writing it to storage is left out). */
    method Save()
      modifies this
      ensures Valid()
      ensures !editMode && state == old(editState) && editState == old(editState)
    {
      state := editState;
      editMode := false;
    }

    /** `handleCancel`: the buffer is thrown away and the saved state shows again. */
    method Cancel()
      modifies this
      ensures Valid()
      ensures !editMode && state == old(state) && editState == old(state)
    {
      editState := state;
      editMode := false;
    }

    /** `handleSyncDraft`, reachable from the edit-mode banner only. */
    method SyncDraft(draft: Option<seq<DraftEntry>>)
      requires editMode
      modifies this
      ensures Valid() && editMode && state == old(state)
      ensures editState == SyncFromDraft(old(editState), draft)
    {
      if draft.Some? {
        var players := ApplyDraftTeams(editState.players, draft.value);
        editState := editState.(players := players);
      }
    }

    /** The slot selects exist in edit mode only. */
    method UpdateMatchupPlayer(ri: nat, mi: nat, side: Side, si: nat, name: string)
      requires editMode && ValidSlot(editState, ri, mi, side, si)
      modifies this
      ensures Valid() && editMode && state == old(state)
      ensures editState == SetMatchupPlayer(old(editState), ri, mi, side, si, name)
    {
      editState := SetMatchupPlayer(editState, ri, mi, side, si, name);
    }

    method UpdateMatchupWinner(ri: nat, mi: nat, w: Decision)
      requires editMode && ValidMatchup(editState, ri, mi)
      modifies this
      ensures Valid() && editMode && state == old(state)
      ensures editState == SetMatchupWinner(old(editState), ri, mi, w)
    {
      editState := SetMatchupWinner(editState, ri, mi, w);
    }

    method UpdateMatchupResult(ri: nat, mi: nat, text: string)
      requires editMode && ValidMatchup(editState, ri, mi)
      modifies this
      ensures Valid() && editMode && state == old(state)
      ensures editState == SetMatchupResult(old(editState), ri, mi, text)
    {
      editState := SetMatchupResult(editState, ri, mi, text);
    }
  }
}
