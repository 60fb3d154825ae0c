/**
 * The historic records page (src/app/records/page.tsx): the champions among
 * the tournament records, the tally of titles per champion, and the two halves
 * of the "Roll of Champions" grid.
 */
module Records {
  import opened Wrappers
  import Seqs

  /** `TournamentRecord`; `notes` is the empty string when absent. */
  datatype TournamentRecord = TournamentRecord(
    year: int,
    champion: Option<string>,
    score: Option<string>,
    total: Option<int>,
    notes: string)

  /** `r.champion !== null`. */
  predicate HasChampion(r: TournamentRecord) {
    r.champion.Some?
  }

  /** `r.champion` as a JavaScript condition: set and not the empty string. */
  predicate Crowned(r: TournamentRecord) {
    r.champion.Some? && r.champion.value != ""
  }

  predicate NotCrowned(r: TournamentRecord) {
    !Crowned(r)
  }

  /** `r.champion === null`. */
  predicate NoChampion(r: TournamentRecord) {
    r.champion.None?
  }

  /** Filtering by `HasChampion` keeps every such record as often as it occurs, and no other. */
  lemma ChampionsMultiplicity(records: seq<TournamentRecord>)
    ensures forall x: TournamentRecord ::
              multiset(Seqs.Filter(records, HasChampion))[x] == if x.champion != None then multiset(records)[x] else 0
  {
    var kept, dropped := Seqs.Filter(records, HasChampion), Seqs.Filter(records, NoChampion);
    Seqs.FilterPartition(records, HasChampion, NoChampion);
    forall x: TournamentRecord
      ensures multiset(kept)[x] == if x.champion != None then multiset(records)[x] else 0
    {
      assert multiset(kept)[x] + multiset(dropped)[x] == multiset(records)[x];
      if x.champion != None {
        assert x !in dropped;
      } else {
        assert x !in kept;
      }
    }
  }

  /** `champions`: the records with a non-null champion, each as often as it occurs, in their original order. */
  function Champions(records: seq<TournamentRecord>): (r: seq<TournamentRecord>)
    ensures forall x :: x in r <==> x in records && x.champion != None
    ensures forall x: TournamentRecord :: multiset(r)[x] == if x.champion != None then multiset(records)[x] else 0
    ensures Seqs.IsSubsequence(r, records)
  {
    Seqs.FilterIsSubsequence(records, HasChampion);
    ChampionsMultiplicity(records);
    Seqs.Filter(records, HasChampion)
  }

  /** The number of records in `rs` won by `name`. */
  function TitlesOf(rs: seq<TournamentRecord>, name: string): (n: nat)
    ensures n <= |rs|
    ensures n == 0 <==> forall i :: 0 <= i < |rs| ==> rs[i].champion != Some(name)
    decreases |rs|
  {
    if rs == [] then 0
    else TitlesOf(rs[..|rs| - 1], name) + (if rs[|rs| - 1].champion == Some(name) then 1 else 0)
  }

  /** `totalTitles` after the `forEach` has visited every record of `rs`. */
  function Tally(rs: seq<TournamentRecord>): (t: map<string, nat>)
    ensures forall n :: n in t ==> n != "" && 1 <= t[n] <= |rs|
    decreases |rs|
  {
    if rs == [] then map[]
    else
      var t := Tally(rs[..|rs| - 1]);
      var r := rs[|rs| - 1];
      if Crowned(r) then t[r.champion.value := (if r.champion.value in t then t[r.champion.value] else 0) + 1] else t
  }

  /** Each champion's tally is their number of titles; names that never won, and the empty name, are absent. */
  lemma {:induction false} TallyCounts(rs: seq<TournamentRecord>)
    ensures forall n :: n in Tally(rs) <==> n != "" && TitlesOf(rs, n) > 0
    ensures forall n :: n in Tally(rs) ==> Tally(rs)[n] == TitlesOf(rs, n) && Tally(rs)[n] >= 1
    decreases |rs|
  {
    if rs != [] {
      TallyCounts(rs[..|rs| - 1]);
    }
  }

  /** The sum of the values of a map. */
  ghost function SumValues(m: map<string, nat>): nat
    decreases |m|
  {
    if m == map[] then 0
    else
      var k :| k in m;
      m[k] + SumValues(m - {k})
  }

  lemma {:induction false} SumValuesRemove(m: map<string, nat>, k: string)
    requires k in m
    ensures SumValues(m) == m[k] + SumValues(m - {k})
    decreases |m|
  {
    var j :| j in m && SumValues(m) == m[j] + SumValues(m - {j});
    if j != k {
      SumValuesRemove(m - {j}, k);
      SumValuesRemove(m - {k}, j);
      assert m - {j} - {k} == m - {k} - {j};
    }
  }

  /** The tallies add up to the number of records with a non-empty champion. */
  lemma {:induction false} TallySum(rs: seq<TournamentRecord>)
    ensures SumValues(Tally(rs)) == |Seqs.Filter(rs, Crowned)|
    decreases |rs|
  {
    if rs != [] {
      TallySum(rs[..|rs| - 1]);
      CrownedCountStep(rs);
      TallySumStep(rs);
    }
  }

  lemma CrownedCountStep(rs: seq<TournamentRecord>)
    requires rs != []
    ensures |Seqs.Filter(rs, Crowned)| == |Seqs.Filter(rs[..|rs| - 1], Crowned)| + (if Crowned(rs[|rs| - 1]) then 1 else 0)
  {
    var front, r := rs[..|rs| - 1], rs[|rs| - 1];
    var extra: seq<TournamentRecord> := if Crowned(r) then [r] else [];
    assert Seqs.Filter(rs, Crowned) == Seqs.Filter(front, Crowned) + extra by {
      assert rs == front + [r];
      Seqs.FilterSnoc(front, r, Crowned);
    }
  }

  lemma TallySumStep(rs: seq<TournamentRecord>)
    requires rs != []
    ensures SumValues(Tally(rs)) == SumValues(Tally(rs[..|rs| - 1])) + (if Crowned(rs[|rs| - 1]) then 1 else 0)
  {
    var r := rs[|rs| - 1];
    TallyStep(rs);
    if Crowned(r) {
      SumValuesBump(Tally(rs[..|rs| - 1]), r.champion.value);
    }
  }

  /** One step of the tally loop, on the last record. */
  lemma TallyStep(rs: seq<TournamentRecord>)
    requires rs != []
    ensures var t, r := Tally(rs[..|rs| - 1]), rs[|rs| - 1];
      Tally(rs) == if Crowned(r) then t[r.champion.value := (if r.champion.value in t then t[r.champion.value] else 0) + 1] else t
  {
  }

  /** Counting one more title for `n` raises the sum by one. */
  lemma SumValuesBump(t: map<string, nat>, n: string)
    ensures SumValues(t[n := (if n in t then t[n] else 0) + 1]) == SumValues(t) + 1
  {
    var t' := t[n := (if n in t then t[n] else 0) + 1];
    assert t' - {n} == t - {n};
    SumValuesRemove(t', n);
    if n in t {
      SumValuesRemove(t, n);
    } else {
      assert t - {n} == t;
    }
  }

  /** With no champion named by the empty string, the tallies add up to `champions.length`. */
  lemma TallySumMatchesChampions(records: seq<TournamentRecord>)
    requires forall i :: 0 <= i < |records| ==> records[i].champion != Some("")
    ensures SumValues(Tally(Champions(records))) == |Champions(records)|
  {
    var cs := Champions(records);
    TallySum(cs);
    Seqs.FilterAll(cs, Crowned);
  }

  /** A record whose champion is the empty string is in `champions` but not in any tally. */
  lemma EmptyChampionNotTallied()
    ensures var records := [TournamentRecord(2020, Some(""), None, None, "")];
      |Champions(records)| == 1 && Tally(Champions(records)) == map[]
  {
    var records := [TournamentRecord(2020, Some(""), None, None, "")];
    assert Champions(records) == records;
  }

  /** The `forEach` over `champions` that builds `totalTitles`. */
  method TallyTitles(champions: seq<TournamentRecord>) returns (totalTitles: map<string, nat>)
    ensures totalTitles == Tally(champions)
    ensures forall n :: n in totalTitles <==> n != "" && TitlesOf(champions, n) > 0
    ensures forall n :: n in totalTitles ==> totalTitles[n] == TitlesOf(champions, n)
  {
    totalTitles := map[];
    var i := 0;
    while i < |champions|
      invariant 0 <= i <= |champions|
      invariant totalTitles == Tally(champions[..i])
    {
      var r := champions[i];
      if r.champion.Some? && r.champion.value != "" {
        var name := r.champion.value;
        totalTitles := totalTitles[name := (if name in totalTitles then totalTitles[name] else 0) + 1];
      }
      assert champions[..i + 1][..i] == champions[..i];
      i := i + 1;
    }
    assert champions[..i] == champions;
    TallyCounts(champions);
  }

  /** The two halves of the "Roll of Champions" grid, crowned years and the rest, split the records between them. */
  lemma RollOfChampionsPartition(records: seq<TournamentRecord>)
    ensures multiset(Seqs.Filter(records, Crowned)) + multiset(Seqs.Filter(records, NotCrowned)) == multiset(records)
    ensures |Seqs.Filter(records, Crowned)| + |Seqs.Filter(records, NotCrowned)| == |records|
    ensures forall r :: !(r in Seqs.Filter(records, Crowned) && r in Seqs.Filter(records, NotCrowned))
  {
    Seqs.FilterPartition(records, Crowned, NotCrowned);
  }
}
