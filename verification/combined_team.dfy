/** Merging several sources' records of one team
    (combined/combined_team_model.py): scalars by last-present-wins,
    players grouped by jersey (or identifier) and merged group by group,
    prices deduplicated by bookmaker and price keeping the first seen. */
module CombinedTeam {
  import opened Wrappers
  import opened Models
  import Fold
  import Grouping
  import TeamStats

  /** `create_combined_player_model(players, identifier)`, not part of
      this model. */
  type PlayerCombiner = (seq<Player>, string) -> Player

  /** Python's `str(float)`, not part of this model. */
  type PriceText = real -> string

  /** The player grouping key: the jersey when known, else the player's
      identifier. */
  function PlayerKey(p: Player): string {
    if p.jersey.Some? then p.jersey.value else p.identifier
  }

  /** The price deduplication key `f"{bookie.identifier}-{odds}"`. */
  function OddsKey(text: PriceText, o: Odds): string {
    o.bookie.identifier + "-" + text(o.odds)
  }

  function OddsKeyOf(text: PriceText): Odds -> string {
    o => OddsKey(text, o)
  }

  /** Every player of every team, team by team, in order. */
  function AllPlayers(teams: seq<Team>): seq<Player> {
    Fold.Flatten(seq(|teams|, i requires 0 <= i < |teams| => teams[i].players))
  }

  /** Every price of every team, team by team, in order. */
  function AllOdds(teams: seq<Team>): seq<Odds> {
    Fold.Flatten(seq(|teams|, i requires 0 <= i < |teams| => teams[i].odds))
  }

  function LocationsOf(teams: seq<Team>): (xs: seq<Option<string>>)
    ensures |xs| == |teams| && forall i :: 0 <= i < |teams| ==> xs[i] == teams[i].location
  {
    seq(|teams|, i requires 0 <= i < |teams| => teams[i].location)
  }

  function PointsOf(teams: seq<Team>): (xs: seq<Option<real>>)
    ensures |xs| == |teams| && forall i :: 0 <= i < |teams| ==> xs[i] == teams[i].points
  {
    seq(|teams|, i requires 0 <= i < |teams| => teams[i].points)
  }

  function RanksOf(teams: seq<Team>): (xs: seq<Option<int>>)
    ensures |xs| == |teams| && forall i :: 0 <= i < |teams| ==> xs[i] == teams[i].ladderRank
  {
    seq(|teams|, i requires 0 <= i < |teams| => teams[i].ladderRank)
  }

  /** One merged player per group, each merged under the identifier of
      the group's first player. */
  function MergeGroups(gs: seq<Grouping.Group<string, Player>>, combine: PlayerCombiner): seq<Player>
    requires Grouping.NoEmptyGroup(gs)
  {
    seq(|gs|, i requires 0 <= i < |gs| => combine(gs[i].members, gs[i].members[0].identifier))
  }

  /** One merged player per player key, in the order keys are first
      seen. */
  function MergePlayers(players: seq<Player>, combine: PlayerCombiner): (r: seq<Player>)
    ensures |r| == |set k | k in Grouping.KeysOf(players, PlayerKey)|
  {
    Grouping.GroupByHeads(players, PlayerKey);
    Grouping.GroupCountIsDistinctKeys(players, PlayerKey);
    MergeGroups(Grouping.GroupBy(players, PlayerKey), combine)
  }

  /** The first price seen for each price key, in first-seen order. */
  function DedupOdds(odds: seq<Odds>, text: PriceText): (r: seq<Odds>)
    ensures |r| == |set k | k in Grouping.KeysOf(odds, OddsKeyOf(text))|
    ensures forall i :: 0 <= i < |r| ==> r[i] in odds
    ensures forall i, j :: 0 <= i < j < |r| ==> OddsKey(text, r[i]) != OddsKey(text, r[j])
  {
    var key := OddsKeyOf(text);
    var gs := Grouping.GroupBy(odds, key);
    Grouping.GroupByHeads(odds, key);
    Grouping.GroupByDistinctKeys(odds, key);
    Grouping.GroupCountIsDistinctKeys(odds, key);
    var r := Grouping.FirstOfEach(gs);
    assert forall i :: 0 <= i < |r| ==> OddsKey(text, r[i]) == gs[i].key;
    r
  }

  /** `create_combined_team_model(team_models, identifier)`. An empty list
      fails on `team_models[0]`. The merged team's statistics are derived
      afresh from its merged players, none being given. */
  function CombineTeams(teams: seq<Team>, identifier: string, combine: PlayerCombiner,
                        text: PriceText): (r: Result<Team, Error>)
    ensures r.Failure? <==> |teams| == 0
    ensures r.Failure? ==> r.error == IndexError
    ensures r.Success? ==> r.value.identifier == identifier && r.value.name == teams[0].name
    ensures r.Success? ==> Fold.IsLastPresent(LocationsOf(teams), r.value.location)
    ensures r.Success? ==> Fold.IsLastPresent(PointsOf(teams), r.value.points)
    ensures r.Success? ==> Fold.IsLastPresent(RanksOf(teams), r.value.ladderRank)
    ensures r.Success? ==> r.value.players == MergePlayers(AllPlayers(teams), combine)
    ensures r.Success? ==> r.value.odds == DedupOdds(AllOdds(teams), text)
    ensures r.Success? ==>
              (forall s :: s in r.value.stats && r.value.stats[s] == TeamStats.Resolved(s, r.value.players, map[]))
  {
    if |teams| == 0 then Failure(IndexError)
    else
      Success(TeamStats.NewTeam(
        identifier, teams[0].name,
        Fold.LastPresent(LocationsOf(teams)),
        MergePlayers(AllPlayers(teams), combine),
        DedupOdds(AllOdds(teams), text),
        Fold.LastPresent(PointsOf(teams)),
        Fold.LastPresent(RanksOf(teams)),
        map[]))
  }

  /** The merged players, stated against an independent reading of the
      grouping loop: the i-th merged player combines exactly the input
      players carrying the i-th key, in input order, under the
      identifier of the first of them. */
  lemma MergePlayersByKey(players: seq<Player>, combine: PlayerCombiner)
    ensures var keys := Grouping.GroupKeys(Grouping.GroupBy(players, PlayerKey));
      && |MergePlayers(players, combine)| == |keys|
      && (forall i :: 0 <= i < |keys| ==> keys[i] in Grouping.KeysOf(players, PlayerKey))
      && (forall i :: 0 <= i < |keys| ==>
            MergePlayers(players, combine)[i] ==
            combine(Grouping.WithKey(players, PlayerKey, keys[i]),
                    players[Grouping.FirstIndex(Grouping.KeysOf(players, PlayerKey), keys[i])].identifier))
  {
    var gs := Grouping.GroupBy(players, PlayerKey);
    Grouping.GroupByHeads(players, PlayerKey);
    Grouping.GroupByMembers(players, PlayerKey);
  }

  /** The merge keys are the distinct player keys, each once, in the
      order they first occur; so no player is dropped and no two merged
      players share a jersey (or, lacking one, an identifier). */
  lemma MergeKeysAreFirstOccurrences(players: seq<Player>)
    ensures var keys := Grouping.GroupKeys(Grouping.GroupBy(players, PlayerKey));
            var ks := Grouping.KeysOf(players, PlayerKey);
      && (forall k :: k in keys <==> k in ks)
      && (forall i, j :: 0 <= i < j < |keys| ==> keys[i] != keys[j])
      && (forall i, j :: 0 <= i < j < |keys| ==> Grouping.FirstIndex(ks, keys[i]) < Grouping.FirstIndex(ks, keys[j]))
  {
    Grouping.GroupKeysAreFirstOccurrences(players, PlayerKey);
  }

  /** Deduplicated prices: one per price key, each the first input price
      with that key, in first-seen order. */
  lemma DedupOddsKeepsFirst(odds: seq<Odds>, text: PriceText)
    ensures var keys := Grouping.GroupKeys(Grouping.GroupBy(odds, OddsKeyOf(text)));
            var ks := Grouping.KeysOf(odds, OddsKeyOf(text));
      && |DedupOdds(odds, text)| == |keys|
      && (forall k :: k in keys <==> k in ks)
      && (forall i :: 0 <= i < |keys| ==> DedupOdds(odds, text)[i] == odds[Grouping.FirstIndex(ks, keys[i])])
      && (forall i :: 0 <= i < |keys| ==> OddsKey(text, DedupOdds(odds, text)[i]) == keys[i])
      && (forall i, j :: 0 <= i < j < |keys| ==> keys[i] != keys[j])
  {
    Grouping.GroupByHeads(odds, OddsKeyOf(text));
    Grouping.GroupKeysAreFirstOccurrences(odds, OddsKeyOf(text));
  }

  /** Prices with pairwise distinct keys all survive, in order. */
  lemma DistinctOddsAreKept(odds: seq<Odds>, text: PriceText)
    requires forall i, j :: 0 <= i < j < |odds| ==> OddsKey(text, odds[i]) != OddsKey(text, odds[j])
    ensures DedupOdds(odds, text) == odds
  {
    Grouping.GroupByDistinct(odds, OddsKeyOf(text));
  }

  /** A price repeating the bookmaker and price of an earlier one is
      dropped: appending it changes nothing. */
  lemma RepeatedPriceIsDropped(odds: seq<Odds>, text: PriceText, o: Odds)
    requires exists i :: 0 <= i < |odds| && OddsKey(text, odds[i]) == OddsKey(text, o)
    ensures DedupOdds(odds + [o], text) == DedupOdds(odds, text)
  {
    var key := OddsKeyOf(text);
    var i :| 0 <= i < |odds| && OddsKey(text, odds[i]) == OddsKey(text, o);
    assert Grouping.KeysOf(odds, key)[i] == key(o);
    Grouping.FirstOfEachSnocSeen(odds, key, o);
  }

  /** One team, as the source's single record: its scalars and name are
      kept and a single price per key remains. */
  lemma CombineOneTeam(t: Team, identifier: string, combine: PlayerCombiner, text: PriceText)
    requires forall i, j :: 0 <= i < j < |t.odds| ==> OddsKey(text, t.odds[i]) != OddsKey(text, t.odds[j])
    ensures CombineTeams([t], identifier, combine, text).Success?
    ensures var u := CombineTeams([t], identifier, combine, text).value;
      && u.name == t.name && u.location == t.location && u.points == t.points
      && u.ladderRank == t.ladderRank && u.odds == t.odds
      && u.players == MergePlayers(t.players, combine)
  {
    Fold.LastPresentSingleton(t.location);
    Fold.LastPresentSingleton(t.points);
    Fold.LastPresentSingleton(t.ladderRank);
    assert LocationsOf([t]) == [t.location];
    assert PointsOf([t]) == [t.points];
    assert RanksOf([t]) == [t.ladderRank];
    assert AllOdds([t]) == t.odds by {
      assert seq(1, i requires 0 <= i < 1 => [t][i].odds) == [t.odds];
      Fold.FlattenSingleton(t.odds);
    }
    assert AllPlayers([t]) == t.players by {
      assert seq(1, i requires 0 <= i < 1 => [t][i].players) == [t.players];
      Fold.FlattenSingleton(t.players);
    }
    DistinctOddsAreKept(t.odds, text);
  }

  /** Every player of every input team is represented: its key is the key
      of exactly one merged player. */
  lemma EveryPlayerIsMergedOnce(teams: seq<Team>, k: nat, p: Player)
    requires k < |teams| && p in teams[k].players
    ensures var keys := Grouping.GroupKeys(Grouping.GroupBy(AllPlayers(teams), PlayerKey));
      exists i :: 0 <= i < |keys| && keys[i] == PlayerKey(p) &&
        forall j :: 0 <= j < |keys| && keys[j] == PlayerKey(p) ==> j == i
  {
    var xss := seq(|teams|, i requires 0 <= i < |teams| => teams[i].players);
    Fold.FlattenMembership(xss, p);
    assert p in xss[k];
    var ps := AllPlayers(teams);
    assert p in ps;
    MergeKeysAreFirstOccurrences(ps);
    var keys := Grouping.GroupKeys(Grouping.GroupBy(ps, PlayerKey));
    var t :| 0 <= t < |ps| && ps[t] == p;
    assert Grouping.KeysOf(ps, PlayerKey)[t] == PlayerKey(p);
    assert PlayerKey(p) in Grouping.KeysOf(ps, PlayerKey);
    assert PlayerKey(p) in keys;
  }
}
