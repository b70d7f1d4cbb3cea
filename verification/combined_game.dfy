/** Merging several sources' records of one game
    (combined/combined_game_model.py): venue identity resolution through
    an identity table with a fallback and an error path, teams grouped by
    their mapped identity and merged group by group, and scalars by
    last-present-wins. */
module CombinedGame {
  import opened Wrappers
  import opened Models
  import Fold
  import Grouping
  import CombinedTeam
  import CombinedVenue

  /** An identity table's `.get`: the canonical identifier of a raw one,
      when the table maps it. */
  type IdentityTable = string -> Option<string>

  const NoVenueIdentity := "full_venue_identity is null."

  // ---------------------------------------------------------------------
  // Venues (`_venue_models`)

  function VenuesOf(games: seq<Game>): (xs: seq<Option<Venue>>)
    ensures |xs| == |games| && forall i :: 0 <= i < |games| ==> xs[i] == games[i].venue
  {
    seq(|games|, i requires 0 <= i < |games| => games[i].venue)
  }

  /** The identity the table gives a game's venue; `None` for a game
      without venue or a venue the table does not map. */
  function MappedVenue(table: IdentityTable, g: Game): Option<string> {
    if g.venue.Some? then table(g.venue.value.identifier) else None
  }

  function MappedVenues(games: seq<Game>, table: IdentityTable): (xs: seq<Option<string>>)
    ensures |xs| == |games| && forall i :: 0 <= i < |games| ==> xs[i] == MappedVenue(table, games[i])
  {
    seq(|games|, i requires 0 <= i < |games| => MappedVenue(table, games[i]))
  }

  /** `_venue_models`: every venue present, in game order, and the identity
      of the last venue the table maps (a venue the table does not map is
      collected all the same but leaves the identity alone). */
  function ScanVenues(games: seq<Game>, table: IdentityTable): (r: (seq<Venue>, Option<string>))
    ensures forall i :: 0 <= i < |games| && games[i].venue.Some? ==> games[i].venue.value in r.0
    ensures forall v :: v in r.0 ==> exists i :: 0 <= i < |games| && games[i].venue == Some(v)
    ensures Fold.IsLastPresent(MappedVenues(games, table), r.1)
  {
    var xs := VenuesOf(games);
    var venues := Fold.Present(xs);
    Fold.PresentMembers(xs);
    (venues, Fold.LastPresent(MappedVenues(games, table)))
  }

  /** `full_venue_identity` once the fallback has applied: the identity of
      the last mapped venue, else the raw identifier of the first venue,
      else nothing. */
  function VenueIdentity(games: seq<Game>, table: IdentityTable): (r: Option<string>)
    ensures r.None? <==> forall i :: 0 <= i < |games| ==> games[i].venue.None?
    ensures (exists i :: 0 <= i < |games| && MappedVenue(table, games[i]).Some?) ==>
              Fold.IsLastPresent(MappedVenues(games, table), r)
    ensures (forall i :: 0 <= i < |games| ==> MappedVenue(table, games[i]).None?) ==>
              Fold.IsFirstPresent(VenuesOf(games), if r.Some? then FirstVenue(games) else None)
    ensures (forall i :: 0 <= i < |games| ==> MappedVenue(table, games[i]).None?) && r.Some? ==>
              r.value == FirstVenue(games).value.identifier
  {
    var (venues, identity) := ScanVenues(games, table);
    Fold.FirstPresentIsHead(VenuesOf(games));
    if identity.Some? then identity
    else if |venues| > 0 then Some(venues[0].identifier)
    else None
  }

  /** The first venue of the games, by first-present-wins. */
  function FirstVenue(games: seq<Game>): Option<Venue> {
    Fold.FirstPresent(VenuesOf(games))
  }

  // ---------------------------------------------------------------------
  // Teams (`_team_models`)

  /** A team's group key: its mapped identity, else its raw identifier. */
  function TeamIdentity(table: IdentityTable, t: Team): string {
    table(t.identifier).GetOr(t.identifier)
  }

  function TeamIdentityOf(table: IdentityTable): Team -> string {
    t => TeamIdentity(table, t)
  }

  /** Every team of every game, game by game, in order. */
  function AllTeams(games: seq<Game>): seq<Team> {
    Fold.Flatten(seq(|games|, i requires 0 <= i < |games| => games[i].teams))
  }

  function MergeTeamGroups(gs: seq<Grouping.Group<string, Team>>, combine: CombinedTeam.PlayerCombiner,
                           text: CombinedTeam.PriceText): (r: seq<Team>)
    requires Grouping.NoEmptyGroup(gs)
    ensures |r| == |gs|
    ensures forall i :: 0 <= i < |gs| ==> r[i].identifier == gs[i].key
  {
    seq(|gs|, i requires 0 <= i < |gs| =>
      CombinedTeam.CombineTeams(gs[i].members, gs[i].key, combine, text).value)
  }

  /** One merged team per team identity, in first-seen order, named by
      that identity. */
  function MergeTeams(games: seq<Game>, table: IdentityTable, combine: CombinedTeam.PlayerCombiner,
                      text: CombinedTeam.PriceText): (r: seq<Team>)
    ensures |r| == |set k | k in Grouping.KeysOf(AllTeams(games), TeamIdentityOf(table))|
    ensures forall i :: 0 <= i < |r| ==> r[i].identifier in Grouping.KeysOf(AllTeams(games), TeamIdentityOf(table))
    ensures forall i, j :: 0 <= i < j < |r| ==> r[i].identifier != r[j].identifier
  {
    var key := TeamIdentityOf(table);
    Grouping.GroupByHeads(AllTeams(games), key);
    Grouping.GroupByDistinctKeys(AllTeams(games), key);
    Grouping.GroupCountIsDistinctKeys(AllTeams(games), key);
    MergeTeamGroups(Grouping.GroupBy(AllTeams(games), key), combine, text)
  }

  // ---------------------------------------------------------------------
  // Scalars

  function AttendancesOf(games: seq<Game>): (xs: seq<Option<int>>)
    ensures |xs| == |games| && forall i :: 0 <= i < |games| ==> xs[i] == games[i].attendance
  {
    seq(|games|, i requires 0 <= i < |games| => games[i].attendance)
  }

  function EndsOf(games: seq<Game>): (xs: seq<Option<Timestamp>>)
    ensures |xs| == |games| && forall i :: 0 <= i < |games| ==> xs[i] == games[i].endDt
  {
    seq(|games|, i requires 0 <= i < |games| => games[i].endDt)
  }

  function YearsOf(games: seq<Game>): (xs: seq<Option<int>>)
    ensures |xs| == |games| && forall i :: 0 <= i < |games| ==> xs[i] == games[i].year
  {
    seq(|games|, i requires 0 <= i < |games| => games[i].year)
  }

  function SeasonTypesOf(games: seq<Game>): (xs: seq<Option<string>>)
    ensures |xs| == |games| && forall i :: 0 <= i < |games| ==> xs[i] == games[i].seasonType
  {
    seq(|games|, i requires 0 <= i < |games| => games[i].seasonType)
  }

  /** `create_combined_game_model` with the two-argument team merge. It
      fails with `ValueError` exactly when no game has a venue (an empty
      list included); otherwise the time, week, game number and league are
      the first game's, the venue is merged under the resolved identity
      and the other scalars are last-present-wins. */
  function CombineGames(games: seq<Game>, venueTable: IdentityTable, teamTable: IdentityTable,
                        combinePlayers: CombinedTeam.PlayerCombiner,
                        combineAddresses: CombinedVenue.AddressCombiner,
                        text: CombinedTeam.PriceText): (r: Result<Game, Error>)
    ensures r.Failure? <==> forall i :: 0 <= i < |games| ==> games[i].venue.None?
    ensures r.Failure? ==> r.error == ValueError(NoVenueIdentity)
    ensures r.Success? ==> |games| > 0
    ensures r.Success? ==> && r.value.dt == games[0].dt && r.value.week == games[0].week
                           && r.value.gameNumber == games[0].gameNumber
                           && r.value.league == games[0].league
    ensures r.Success? ==>
              && r.value.venue.Some?
              && r.value.venue == CombinedVenue.CombineVenues(ScanVenues(games, venueTable).0,
                                                              VenueIdentity(games, venueTable).value,
                                                              combineAddresses)
    ensures r.Success? ==> r.value.teams == MergeTeams(games, teamTable, combinePlayers, text)
    ensures r.Success? ==> Fold.IsLastPresent(AttendancesOf(games), r.value.attendance)
    ensures r.Success? ==> Fold.IsLastPresent(EndsOf(games), r.value.endDt)
    ensures r.Success? ==> Fold.IsLastPresent(YearsOf(games), r.value.year)
    ensures r.Success? ==> Fold.IsLastPresent(SeasonTypesOf(games), r.value.seasonType)
  {
    var (venues, _) := ScanVenues(games, venueTable);
    var teams := MergeTeams(games, teamTable, combinePlayers, text);
    var identity := VenueIdentity(games, venueTable);
    if identity.None? then Failure(ValueError(NoVenueIdentity))
    else
      var i :| 0 <= i < |games| && games[i].venue.Some?;
      assert games[i].venue.value in venues;
      Success(Game(
        dt := games[0].dt,
        week := games[0].week,
        gameNumber := games[0].gameNumber,
        venue := CombinedVenue.CombineVenues(venues, identity.value, combineAddresses),
        teams := teams,
        endDt := Fold.LastPresent(EndsOf(games)),
        attendance := Fold.LastPresent(AttendancesOf(games)),
        league := games[0].league,
        year := Fold.LastPresent(YearsOf(games)),
        seasonType := Fold.LastPresent(SeasonTypesOf(games))))
  }

  // ---------------------------------------------------------------------
  // Properties

  /** The venues are collected in game order: the k-th collected venue is
      the venue of the k-th game that has one. */
  lemma VenuesInGameOrder(games: seq<Game>, table: IdentityTable)
    ensures var venues := ScanVenues(games, table).0;
            var at := Fold.PresentIndices(VenuesOf(games));
      |venues| == |at| && forall k :: 0 <= k < |venues| ==> games[at[k]].venue == Some(venues[k])
  {
    Fold.PresentIsOrderedSelection(VenuesOf(games));
  }

  /** Of several mapped venues the last one decides: a mapped venue with
      no mapped venue after it sets the identity. */
  lemma LastMappedVenueWins(games: seq<Game>, table: IdentityTable, i: nat)
    requires i < |games| && MappedVenue(table, games[i]).Some?
    requires forall j :: i < j < |games| ==> MappedVenue(table, games[j]).None?
    ensures VenueIdentity(games, table) == MappedVenue(table, games[i])
  {
    Fold.LastPresentAt(MappedVenues(games, table), i);
  }

  /** A venue the table does not map is still collected but does not
      change the resolved identity, wherever it stands, as long as some
      other venue is mapped. */
  lemma UnmappedVenueKeepsIdentity(a: seq<Game>, g: Game, b: seq<Game>, table: IdentityTable)
    requires g.venue.Some? && table(g.venue.value.identifier).None?
    requires exists i :: 0 <= i < |a + b| && MappedVenue(table, (a + b)[i]).Some?
    ensures g.venue.value in ScanVenues(a + [g] + b, table).0
    ensures VenueIdentity(a + [g] + b, table) == VenueIdentity(a + b, table)
  {
    var gs := a + [g] + b;
    assert gs[|a|] == g;
    MappedSplice(a, g, b, table);
    Fold.LastPresentIgnoresNone(MappedVenues(a, table), MappedVenues(b, table));
    var i :| 0 <= i < |a + b| && MappedVenue(table, (a + b)[i]).Some?;
    var j := if i < |a| then i else i + 1;
    assert gs[j] == (a + b)[i];
  }

  lemma MappedSplice(a: seq<Game>, g: Game, b: seq<Game>, table: IdentityTable)
    ensures MappedVenues(a + [g] + b, table) ==
            MappedVenues(a, table) + [MappedVenue(table, g)] + MappedVenues(b, table)
    ensures MappedVenues(a + b, table) == MappedVenues(a, table) + MappedVenues(b, table)
  {
  }

  /** With no venue mapped, the identity falls back to the raw identifier
      of the first game's venue that is present. */
  lemma FallbackToFirstVenue(games: seq<Game>, table: IdentityTable, i: nat)
    requires i < |games| && games[i].venue.Some?
    requires forall j :: 0 <= j < i ==> games[j].venue.None?
    requires forall j :: 0 <= j < |games| ==> MappedVenue(table, games[j]).None?
    ensures VenueIdentity(games, table) == Some(games[i].venue.value.identifier)
  {
    Fold.FirstPresentAt(VenuesOf(games), i);
  }

  /** Team grouping: the merged teams are named by the distinct team
      identities in first-seen order, each merging exactly the input
      teams with that identity, in input order. */
  lemma TeamsMergedByIdentity(games: seq<Game>, table: IdentityTable,
                              combine: CombinedTeam.PlayerCombiner, text: CombinedTeam.PriceText)
    ensures var teams := AllTeams(games);
            var keys := Grouping.GroupKeys(Grouping.GroupBy(teams, TeamIdentityOf(table)));
            var merged := MergeTeams(games, table, combine, text);
      && |merged| == |keys|
      && (forall i :: 0 <= i < |keys| ==> merged[i].identifier == keys[i])
      && (forall i :: 0 <= i < |keys| ==>
            var members := Grouping.WithKey(teams, TeamIdentityOf(table), keys[i]);
            |members| > 0 &&
            merged[i] == CombinedTeam.CombineTeams(members, keys[i], combine, text).value)
      && (forall k :: k in keys <==> k in Grouping.KeysOf(teams, TeamIdentityOf(table)))
      && (forall i, j :: 0 <= i < j < |keys| ==> keys[i] != keys[j])
      && (forall i, j :: 0 <= i < j < |keys| ==>
            Grouping.FirstIndex(Grouping.KeysOf(teams, TeamIdentityOf(table)), keys[i]) <
            Grouping.FirstIndex(Grouping.KeysOf(teams, TeamIdentityOf(table)), keys[j]))
  {
    var teams := AllTeams(games);
    var key := TeamIdentityOf(table);
    Grouping.GroupByHeads(teams, key);
    Grouping.GroupByMembers(teams, key);
    Grouping.GroupKeysAreFirstOccurrences(teams, key);
  }

  /** Every team of every game lands in exactly one merged team: the one
      named by its identity. */
  lemma EveryTeamInOneGroup(games: seq<Game>, table: IdentityTable, k: nat, t: Team)
    requires k < |games| && t in games[k].teams
    ensures var keys := Grouping.GroupKeys(Grouping.GroupBy(AllTeams(games), TeamIdentityOf(table)));
      exists i :: 0 <= i < |keys| && keys[i] == TeamIdentity(table, t) &&
        forall j :: 0 <= j < |keys| && keys[j] == TeamIdentity(table, t) ==> j == i
  {
    var xss := seq(|games|, i requires 0 <= i < |games| => games[i].teams);
    Fold.FlattenMembership(xss, t);
    assert t in xss[k];
    var teams := AllTeams(games);
    var key := TeamIdentityOf(table);
    Grouping.GroupKeysAreFirstOccurrences(teams, key);
    var keys := Grouping.GroupKeys(Grouping.GroupBy(teams, key));
    var s :| 0 <= s < |teams| && teams[s] == t;
    var ks := Grouping.KeysOf(teams, key);
    assert key(t) == TeamIdentity(table, t);
    assert ks[s] == TeamIdentity(table, t);
    assert ks[s] in ks;
    assert forall k :: k in keys <==> k in ks;
    assert TeamIdentity(table, t) in keys;
    var i :| 0 <= i < |keys| && keys[i] == TeamIdentity(table, t);
  }

  /** A single game with a venue keeps its own scalars; its venue is
      merged under its mapped identity, or its raw identifier. */
  lemma CombineOneGame(g: Game, venueTable: IdentityTable, teamTable: IdentityTable,
                       combinePlayers: CombinedTeam.PlayerCombiner,
                       combineAddresses: CombinedVenue.AddressCombiner,
                       text: CombinedTeam.PriceText)
    requires g.venue.Some?
    ensures var r := CombineGames([g], venueTable, teamTable, combinePlayers, combineAddresses, text);
      && r.Success?
      && r.value.attendance == g.attendance && r.value.endDt == g.endDt
      && r.value.year == g.year && r.value.seasonType == g.seasonType
      && r.value.venue.value.identifier == venueTable(g.venue.value.identifier).GetOr(g.venue.value.identifier)
      && r.value.venue.value.name == g.venue.value.name
  {
    Fold.LastPresentSingleton(g.attendance);
    Fold.LastPresentSingleton(g.endDt);
    Fold.LastPresentSingleton(g.year);
    Fold.LastPresentSingleton(g.seasonType);
    assert AttendancesOf([g]) == [g.attendance];
    assert EndsOf([g]) == [g.endDt];
    assert YearsOf([g]) == [g.year];
    assert SeasonTypesOf([g]) == [g.seasonType];
    assert MappedVenues([g], venueTable) == [MappedVenue(venueTable, g)];
    Fold.LastPresentSingleton(MappedVenue(venueTable, g));
    assert VenuesOf([g]) == [g.venue];
    Fold.LastPresentSingleton(g.venue);
    var venues := ScanVenues([g], venueTable).0;
    assert venues == Fold.Present([g.venue]);
    assert venues == [g.venue.value];
  }
}
