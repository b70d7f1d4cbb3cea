# sportsball record reconciliation, in Dafny

sportsball scrapes the same sporting fixture from several sites, such as
AFL Tables, ESPN, AusSportsBetting, OddsPortal and the AFL's own site. It
then folds the per-site records of a game, a team and a venue into one
canonical record. This project models that reconciliation layer and the
small pure transforms around it, and proves what each of them promises.

The reconciliation layer:

- the game merge, `create_combined_game_model` (`CombinedGame`);
- the team merge, `create_combined_team_model` (`CombinedTeam`);
- the venue merge, `create_combined_venue_model` (`CombinedVenue`);
- the AFL venue view, `AFLCombinedVenueModel`, whose address is looked up
  lazily and then kept (`AflVenue`);
- the AFL identity tables and the AFL source priority order (`AflLeague`).

The transforms around it:

- the team statistics a `TeamModel` derives from its players when a field
  is omitted (`TeamStats`);
- the feature-table column names and the team count (`Columns`);
- the season-start feature (`MinFeature`);
- the AusSportsBetting spreadsheet row decoder (`AusSportsBetting`);
- the OddsPortal odds-history extraction (`OddsPortal`);
- the AFL Tables team page (`AflTables`).

Three shared modules carry the folds these all use:

- `Fold`: the "last present value wins" scalar fold, its "first present
  value wins" twin, the selection of the present values, and flattening;
- `Grouping`: the insertion-ordered dictionary-of-lists grouping;
- `Strings`: joining, `str(int)`, `strip`, string ordering and the
  path helpers.

Records are immutable datatypes (`Models`) with `Option` for every
nullable field. Python exceptions become the `Failure` case of a
`Result` (`Wrappers`). A callee whose source is not modelled is a
function-typed parameter, and the contracts say what is handed to it:

- `create_combined_player_model` is `CombinedTeam.PlayerCombiner`;
- `create_combined_address_model` is `CombinedVenue.AddressCombiner`;
- the geocoder behind `GoogleAddressModel` is `AflVenue.Geocoder`;
- `dateutil.parser.parse` and `float(...)` are the AusSportsBetting
  `DateParser` and `NumberParser`;
- the odds and player factories are `OddsPortal.OddsFactory` and
  `AflTables.PlayerFactory`;
- the text form of a price is `CombinedTeam.PriceText`.

The identity tables are given as functions from a name to its canonical
identifier, so a merge can be run with any league's table.

## Model

| member | source | states |
|---|---|---|
| Fold.LastPresent | sportsball/data/combined/combined_venue_model.py:16-27 | The scalar fold gives None exactly when every candidate is None; otherwise it gives a present candidate, and every candidate after it is None. |
| Fold.LastPresentIgnoresNone | sportsball/data/combined/combined_team_model.py:21-23 | Inserting a None candidate anywhere never changes the folded value. |
| Fold.LastPresentAt | sportsball/data/combined/combined_game_model.py:77-89 | The last present candidate is the folded value, whatever came before it. |
| Fold.FirstPresent | sportsball/data/afl/combined/afl_combined_venue_model.py:43-47 | The first-wins scan gives None exactly when every candidate is None; otherwise it gives a present candidate, and every candidate before it is None. |
| Fold.FirstPresentAt | sportsball/data/afl/combined/afl_combined_venue_model.py:44-47 | The earliest present candidate is what the first-wins scan stops at. |
| Fold.PresentIsOrderedSelection | sportsball/data/combined/combined_venue_model.py:19-21 | Collecting the non-None values keeps exactly the present ones, in input order: the k-th collected value is the one at the k-th present position. |
| Fold.PresentIndicesComplete | sportsball/data/combined/combined_venue_model.py:19-21 | Every present position is selected, and the selected positions are strictly increasing. |
| Fold.PresentAppend | sportsball/data/aussportsbetting/aussportsbetting_league_model.py:91-94 | Collecting the present values of two concatenated runs is collecting each run and concatenating. |
| Fold.FlattenAppend | sportsball/data/oddsportal/oddsportal_team_model.py:42-52 | Appending the lists of two runs of bookmakers, one after the other, is appending each run's lists and concatenating. |
| Fold.FlattenMembership | sportsball/data/combined/combined_game_model.py:43-46 | An element is in the flattened list exactly when it is in one of the inner lists. |
| Grouping.GroupByIsGrouping | sportsball/data/combined/combined_team_model.py:24-28 | The dictionary of lists built by appending under a key has distinct keys. Each group holds exactly the elements with its key, in input order. Every element's key has a group. Groups are ordered by the first occurrence of their keys. |
| Grouping.GroupKeysAreFirstOccurrences | sportsball/data/combined/combined_game_model.py:51-57 | The group keys are exactly the keys that occur, each once, ordered by where each first occurs. |
| Grouping.ExactlyOneGroup | sportsball/data/combined/combined_team_model.py:24-28 | Every input element is in one group and in no other. |
| Grouping.GroupByPreservesCount | sportsball/data/combined/combined_team_model.py:24-28 | The groups hold as many elements altogether as the input has: nothing is lost or duplicated. |
| Grouping.GroupByHeads | sportsball/data/combined/combined_team_model.py:43-46 | No group is empty, and each group's first member is the input element at its key's first occurrence. |
| Grouping.GroupByDistinct | sportsball/data/combined/combined_team_model.py:29-31 | With pairwise different keys, every group is the singleton of its element, in input order. |
| Grouping.FirstOfEachSnocSeen | sportsball/data/combined/combined_team_model.py:29-31 | Appending an element whose key has been seen leaves the first element of each group unchanged. |
| Strings.IntToStringInjective | sportsball/strategy/features/columns.py:18 | `str(i)` tells integers apart: equal texts come from equal integers. |
| Strings.NatToStringRoundTrip | sportsball/strategy/features/columns.py:18 | Reading the decimal text of a natural number back gives that number. |
| Strings.StripIsMaximalTrim | sportsball/data/aussportsbetting/aussportsbetting_league_model.py:48-55 | `strip()` gives a slice of the text with only whitespace before and after it, and with no whitespace at either of its own ends. |
| Strings.StripIdempotent | sportsball/data/aussportsbetting/aussportsbetting_league_model.py:48-55 | Stripping twice is stripping once. |
| Strings.Smallest | sportsball/data/oddsportal/oddsportal_team_model.py:35-36 | The first key after sorting is one of the keys, and no key orders before it. |
| Strings.LastIndexOf | sportsball/data/afl/afltables/afl_afltables_team_model.py:51 | There is no position exactly when the character is absent; a position found holds the character, and no later position does. |
| Strings.LastSegment | sportsball/data/afl/afltables/afl_afltables_team_model.py:51 | `path.split("/")[-1]` is a slash-free suffix of the path, and it is the whole path or follows a slash. |
| Strings.SplitExt | sportsball/data/afl/afltables/afl_afltables_team_model.py:52 | `splitext` splits the name into a root and an extension that put back together give the name. A non-empty extension starts with its only dot, and its root has a character other than a dot. The extension is empty only when no dot follows a non-dot character. |
| CombinedVenue.CombineVenues | sportsball/data/combined/combined_venue_model.py:9-34 | No venue gives None, and otherwise there is a venue. It has the given identifier and the first venue's name. Its address combines the found addresses. `is_grass` and `is_indoor` are the last values present. |
| CombinedVenue.FoundAddresses | sportsball/data/combined/combined_venue_model.py:19-21 | Every address collected belongs to some venue, and every venue's present address is collected. |
| CombinedVenue.FoundAddressesInOrder | sportsball/data/combined/combined_venue_model.py:19-21 | The addresses collected are exactly the present ones, in venue order. |
| CombinedVenue.FlaglessVenueIsIgnored | sportsball/data/combined/combined_venue_model.py:22-27 | A venue that reports neither flag changes neither merged flag, wherever it sits in a list that has other venues. |
| CombinedVenue.CombineSingleVenue | sportsball/data/combined/combined_venue_model.py:9-34 | Merging one venue gives that venue back, with the given identifier and its address passed through the address combiner. |
| CombinedTeam.CombineTeams | sportsball/data/combined/combined_team_model.py:10-49 | An empty list fails on `team_models[0]`. Otherwise the team has the given identifier and the first team's name. `location`, `points` and `ladder_rank` are the last values present. The players are merged by player key and the prices deduplicated by price key. The statistics are derived from the merged players. |
| CombinedTeam.MergePlayersByKey | sportsball/data/combined/combined_team_model.py:24-28 | One merged player per distinct jersey-or-identifier key. Each one is the player combiner applied to every player with that key, and it is named by the first such player's identifier. |
| CombinedTeam.MergePlayers | sportsball/data/combined/combined_team_model.py:24-28 | There are as many merged players as there are distinct jersey-or-identifier keys among the players. |
| CombinedTeam.MergeKeysAreFirstOccurrences | sportsball/data/combined/combined_team_model.py:24-28 | The merged players' keys are the keys that occur, each once, in first-seen order. |
| CombinedTeam.EveryPlayerIsMergedOnce | sportsball/data/combined/combined_team_model.py:24-28 | Every input player's key is the key of exactly one merged player. |
| CombinedTeam.DedupOddsKeepsFirst | sportsball/data/combined/combined_team_model.py:29-31 | One price per distinct `bookie-odds` key, each being the first price with that key, in first-seen order. |
| CombinedTeam.DedupOdds | sportsball/data/combined/combined_team_model.py:29-31 | There are as many prices as distinct `bookie-odds` keys. Every price kept is an input price, and no two kept prices share a key. |
| CombinedTeam.DistinctOddsAreKept | sportsball/data/combined/combined_team_model.py:29-31 | Prices whose keys all differ come through unchanged. |
| CombinedTeam.RepeatedPriceIsDropped | sportsball/data/combined/combined_team_model.py:29-31 | A later price with a key seen already adds nothing. |
| CombinedTeam.CombineOneTeam | sportsball/data/combined/combined_team_model.py:20-48 | For a single team whose prices have distinct keys, the name, location, points, ladder rank and prices are the input's, and the players are its players merged. |
| CombinedGame.ScanVenues | sportsball/data/combined/combined_game_model.py:18-32 | Every game's venue is collected and nothing else is. The identity found is the last venue identity that the identity table maps. |
| CombinedGame.VenuesInGameOrder | sportsball/data/combined/combined_game_model.py:23-31 | The venues are collected in game order, one for each game that has a venue. |
| CombinedGame.VenueIdentity | sportsball/data/combined/combined_game_model.py:91-94 | There is no identity exactly when no game has a venue. If some venue is mapped, the identity is the last mapped one. If none is, it is the first collected venue's raw identifier. |
| CombinedGame.LastMappedVenueWins | sportsball/data/combined/combined_game_model.py:23-31 | The last game whose venue the table maps sets the identity, whatever came before it. |
| CombinedGame.UnmappedVenueKeepsIdentity | sportsball/data/combined/combined_game_model.py:26-31 | A venue the table does not map is still collected but does not change the identity. |
| CombinedGame.FallbackToFirstVenue | sportsball/data/combined/combined_game_model.py:91-92 | When no venue is mapped, the identity is the first venue's raw identifier. |
| CombinedGame.MergeTeams | sportsball/data/combined/combined_game_model.py:35-57 | There is one merged team per distinct team identity of the games' teams. Each is named by an identity that occurs, and no two share an identifier. |
| CombinedGame.CombineGames | sportsball/data/combined/combined_game_model.py:60-107 | The merge fails with a ValueError exactly when no game has a venue. Otherwise `dt`, `week`, `game_number` and `league` are the first game's. The venue is the venue merge of the collected venues under the resolved identity. The teams are merged by identity. `attendance`, `end_dt`, `year` and `season_type` are the last values present. |
| CombinedGame.TeamsMergedByIdentity | sportsball/data/combined/combined_game_model.py:42-57 | One merged team per distinct mapped-or-raw identity, in first-seen order. Each one is named by its identity and is the team merge of every team with that identity. |
| CombinedGame.EveryTeamInOneGroup | sportsball/data/combined/combined_game_model.py:46-53 | Every input team's identity is the key of exactly one merged team. |
| CombinedGame.CombineOneGame | sportsball/data/combined/combined_game_model.py:60-107 | A single game with a venue merges into itself: the same scalars, the same venue name, and the table's identity for its venue, or the raw one when it is unmapped. |
| AflVenue.Identifier | sportsball/data/afl/combined/afl_combined_venue_model.py:29-32 | The first venue's identifier; an empty list fails with IndexError. |
| AflVenue.Name | sportsball/data/afl/combined/afl_combined_venue_model.py:34-37 | The first venue's name; an empty list fails with IndexError. |
| AflVenue.ReadAddress | sportsball/data/afl/combined/afl_combined_venue_model.py:39-53 | A cached address is returned as it is. Otherwise the first present venue address is used, or, when there is none, the geocoder's answer for `"<name> - Australia"`. Whatever is returned is then cached. |
| AflVenue.SecondReadIsCached | sportsball/data/afl/combined/afl_combined_venue_model.py:42-53 | A second read returns the first read's address and state, whatever geocoder it is given. |
| AflVenue.GeocoderOnlyWhenAllAbsent | sportsball/data/afl/combined/afl_combined_venue_model.py:48-51 | When any venue has an address, the result does not depend on the geocoder. |
| AflVenue.FirstAddressWins | sportsball/data/afl/combined/afl_combined_venue_model.py:43-47 | The earliest venue with an address supplies it, even if later venues have addresses too. |
| AflVenue.GeocoderFallback | sportsball/data/afl/combined/afl_combined_venue_model.py:48-51 | Without any venue address, a fresh view asks the geocoder for `"<first name> - Australia"`. |
| AflLeague.TeamKeyFixed | sportsball/data/afl/combined/afl_combined_league_model.py:35-100 | Every canonical team identifier is a key of the team table and maps to itself. |
| AflLeague.VenueKeyFixed | sportsball/data/afl/combined/afl_combined_league_model.py:158-274 | Every canonical venue identifier, including the display-name ones, is a key of the venue table and maps to itself. |
| AflLeague.TeamIdentity | sportsball/data/afl/combined/afl_combined_league_model.py:35-100 | A name has no identity exactly when the team table lacks it; an identity found is a key of the table naming the same team. |
| AflLeague.VenueIdentity | sportsball/data/afl/combined/afl_combined_league_model.py:158-274 | A name has no identity exactly when the venue table lacks it; an identity found is a key of the table naming the same venue. |
| AflLeague.TeamIdentityIdempotent | sportsball/data/afl/combined/afl_combined_league_model.py:35-100 | Looking up a team identity again gives the same identity. |
| AflLeague.VenueIdentityIdempotent | sportsball/data/afl/combined/afl_combined_league_model.py:158-274 | Looking up a venue identity again gives the same identity. |
| AflLeague.TeamKeyInjective | sportsball/data/afl/combined/afl_combined_league_model.py:14-34 | Different team constants have different identifier strings. |
| AflLeague.VenueKeyInjective | sportsball/data/afl/combined/afl_combined_league_model.py:101-157 | Different venue constants have different identifier strings. |
| AflLeague.SydneyAliases | sportsball/data/afl/combined/afl_combined_league_model.py:42-82 | "Sydney", "Sydney Swans" and "swans_idx" all map to the Swans. |
| AflLeague.HandsOvalAliases | sportsball/data/afl/combined/afl_combined_league_model.py:210-272 | Four spellings of Hands Oval all map to "Hands Oval, Bunbury". |
| AflLeague.CazalysAliases | sportsball/data/afl/combined/afl_combined_league_model.py:196-248 | Both apostrophe spellings of Cazaly's Stadium map to its identifier. |
| AflLeague.BrisbaneIsTheLions | sportsball/data/afl/combined/afl_combined_league_model.py:27-58 | "Brisbane" maps to the Lions, and the Bears are reached from their own identifier and from nothing else. |
| AflLeague.LaterSourceOverrides | sportsball/data/afl/combined/afl_combined_league_model.py:284-290 | A field is taken from the last source in priority order that reports it. |
| AflLeague.AflSiteWins | sportsball/data/afl/combined/afl_combined_league_model.py:284-290 | Whatever the AFL site reports overrides AFL Tables, ESPN, AusSportsBetting and OddsPortal. |
| TeamStats.SumPlayers | sportsball/data/team_model.py:446-457 | The accumulation loop with its found flag computes the sum of the present player values, or None when no player has the statistic. |
| TeamStats.PlayerSumIsNone | sportsball/data/team_model.py:446-457 | The sum is None exactly when no player has the statistic, so also when there are no players. |
| TeamStats.SumSkipsAbsent | sportsball/data/team_model.py:449-454 | A player without the statistic never changes the sum. |
| TeamStats.SumOverConcatenation | sportsball/data/team_model.py:446-457 | The sum over two rosters is the sum of their sums. |
| TeamStats.Percentage | sportsball/data/team_model.py:824-833 | A percentage is present exactly when made and attempted both are. It is 0 with no attempts, and otherwise it times the attempts gives the made count. |
| TeamStats.Added | sportsball/data/team_model.py:934-941 | Total rebounds are present exactly when both parts are, and are then the two parts added. |
| TeamStats.RuleOf | sportsball/data/team_model.py:1048-1266 | Every derived field reads only fields declared above it. |
| TeamStats.FactoriesReadSums | sportsball/data/team_model.py:1055-1240 | The ratio and total fields read fields that are themselves player sums. |
| TeamStats.DeriveStats | sportsball/data/team_model.py:1028-1266 | Validation in declaration order gives every field its intended value: the given value, or the factory applied to the intended values of the fields above it. |
| TeamStats.ValidateAll | sportsball/data/team_model.py:1048-1266 | Walking all fields in order, starting from nothing, defines every field, each with its intended value. |
| TeamStats.SummedWhenOmitted | sportsball/data/team_model.py:1048-1052 | An omitted sum field is the sum over the players. |
| TeamStats.RatioWhenOmitted | sportsball/data/team_model.py:1196-1200 | With nothing given, a percentage field is the ratio of the two player sums it reads. |
| TeamStats.PairWhenOmitted | sportsball/data/team_model.py:1236-1240 | With nothing given, total rebounds are the offensive and defensive player sums added. |
| TeamStats.GivenFieldsWin | sportsball/data/team_model.py:1048-1266 | A field given at construction keeps its value; no factory runs for it. |
| TeamStats.PercentageReadsGivenField | sportsball/data/team_model.py:1055-1200 | A percentage reads the validated field above it, not the players: an explicit None for field goals makes the percentage None. |
| TeamStats.NewTeam | sportsball/data/team_model.py:1028-1266 | The team keeps the given identity, players, prices, points and rank, and each statistic has its intended value. |
| Columns.TeamColumnPrefix | sportsball/strategy/features/columns.py:13-21 | The team prefix is game prefix, separator, decimal team index, separator, team suffix. |
| Columns.TeamIdentifierColumn | sportsball/strategy/features/columns.py:24-26 | The identifier column is the team prefix, the separator and "identifier". |
| Columns.TeamPointsColumn | sportsball/strategy/features/columns.py:29-31 | The points column is the team prefix, the separator and "points". |
| Columns.PlayerColumnPrefix | sportsball/strategy/features/columns.py:34-49 | Without a player index the prefix is team prefix and player suffix; with one, the decimal index sits between them. |
| Columns.PlayerIdentifierColumn | sportsball/strategy/features/columns.py:52-56 | A player identifier column always begins with its team's prefix and a separator. |
| Columns.TeamColumnPrefixInjective | sportsball/strategy/features/columns.py:13-21 | Different team slots have different prefixes. |
| Columns.TeamIdentifierColumnInjective | sportsball/strategy/features/columns.py:24-26 | Different team slots have different identifier columns. |
| Columns.IdentifierIsNotPoints | sportsball/strategy/features/columns.py:24-31 | No identifier column is a points column. |
| Columns.PlayerColumnPrefixDistinct | sportsball/strategy/features/columns.py:34-49 | The index-less player prefix differs from every indexed one, and different indices give different prefixes. |
| Columns.FindTeamCount | sportsball/strategy/features/columns.py:64-71 | The count is n when slots 0 to n-1 have identifier columns and slot n has none, so a gap stops it and a missing slot 0 gives 0. The loop ends because distinct slots name distinct columns. |
| Columns.TeamCountIsUnique | sportsball/strategy/features/columns.py:64-71 | At most one number meets that definition of the team count. |
| MinFeature.ProcessSeasonStartDt | sportsball/strategy/features/min_feature.py:13-27 | The season-start column is added. The row count is kept. Each row gets the datetime of the first row of its season and keeps its other cells. |
| MinFeature.Process | sportsball/strategy/features/min_feature.py:35-38 | Processing adds exactly the season-start column, keeps the row count and stamps each row with its season's start. |
| MinFeature.RecordRow | sportsball/strategy/features/min_feature.py:18-25 | One call of the row callback, given the map of the first i rows' seasons, leaves the map of the first i+1 rows' seasons and writes the datetime of the first row of that row's season. |
| MinFeature.SeasonKey | sportsball/strategy/features/min_feature.py:21 | The season key is the year's decimal text, a dash and the season type. |
| MinFeature.FirstRowOfSeason | sportsball/strategy/features/min_feature.py:22-23 | The first row of a season is stamped with its own datetime. |
| MinFeature.SameSeasonSameStart | sportsball/strategy/features/min_feature.py:18-27 | Rows of one season share one start, which is the datetime of a row of that season at or before them. |
| MinFeature.StartIsFirstNotEarliest | sportsball/strategy/features/min_feature.py:18-27 | The start is the first row's datetime in table order and not the minimum: a later, earlier-dated row gets a start after its own datetime. |
| MinFeature.LaterRowsDoNotMatter | sportsball/strategy/features/min_feature.py:18-27 | Rows appended below never change an existing row's start. |
| MinFeature.OtherSeasonsDoNotMatter | sportsball/strategy/features/min_feature.py:22-24 | Replacing a row of another season with another row of another season leaves a row's start unchanged. |
| MinFeature.SeasonKeyInjective | sportsball/strategy/features/min_feature.py:21 | Two rows have the same season key only when their year and season type are the same. |
| AusSportsBetting.SpreadsheetUrl | sportsball/data/aussportsbetting/aussportsbetting_league_model.py:20-34 | AFL and NFL have their spreadsheets; every other league fails with a ValueError. |
| AusSportsBetting.RowToGame | sportsball/data/aussportsbetting/aussportsbetting_league_model.py:36-81 | A row yields no game exactly when its first cell reads "Date" or "None"; an empty row fails on its first cell. |
| AusSportsBetting.AflRowLayout | sportsball/data/aussportsbetting/aussportsbetting_league_model.py:42-69 | An AFL row reads date 0 with time 1, home 2, away 3, venue 4, points 5 and 6, and odds 12 and 13; names are stripped. |
| AusSportsBetting.NflRowLayout | sportsball/data/aussportsbetting/aussportsbetting_league_model.py:42-69 | An NFL row reads date 0, home 1, away 2, points 3 and 4, and odds 8 and 12, and has no venue. |
| AusSportsBetting.CleanSheetGames | sportsball/data/aussportsbetting/aussportsbetting_league_model.py:91-94 | When every row decodes, the games are exactly the decoded non-skipped rows, in sheet order. |
| AusSportsBetting.FirstErrorStops | sportsball/data/aussportsbetting/aussportsbetting_league_model.py:91-94 | The first row that raises ends the generator after the games before it, with that row's error. |
| AusSportsBetting.SkippedRowIsIgnored | sportsball/data/aussportsbetting/aussportsbetting_league_model.py:91-94 | A header or blank-date row, wherever it is, changes neither the games nor the error. |
| AusSportsBetting.Games | sportsball/data/aussportsbetting/aussportsbetting_league_model.py:91-94 | The generator yields at most one game per row, and it ends without an error exactly when every row decodes. |
| OddsPortal.PreferredKey | sportsball/data/oddsportal/oddsportal_team_model.py:31-33 | The preferred key starts with "E-", ends with "-0-0-0", and is nine characters longer than the bet and scope ids together. |
| OddsPortal.SelectOddsData | sportsball/data/oddsportal/oddsportal_team_model.py:30-36 | The preferred key's odds data is used when that key is present. Otherwise the data under the smallest key in string order is used, and an empty table fails with IndexError, the only failure. |
| OddsPortal.OutcomeId | sportsball/data/oddsportal/oddsportal_team_model.py:37-40 | A list of outcome ids is indexed with Python's negative indices and fails with IndexError out of range. A dict fails only with a KeyError. |
| OddsPortal.OutcomeIdKeyOrder | sportsball/data/oddsportal/oddsportal_team_model.py:37-40 | A dict of outcome ids is tried under the integer index first and then under its decimal text; when both are missing it fails with a KeyError on the text. |
| OddsPortal.CollectIsFlatten | sportsball/data/oddsportal/oddsportal_team_model.py:42-52 | The appending loop gives each listed bookmaker's prices one after another, in listing order. |
| OddsPortal.CollectOdds | sportsball/data/oddsportal/oddsportal_team_model.py:42-52 | There are as many prices as the listed bookmakers have history entries altogether. |
| OddsPortal.CollectAppend | sportsball/data/oddsportal/oddsportal_team_model.py:42-52 | The prices of two runs of bookmakers are the prices of each run, concatenated. |
| OddsPortal.AbsentBookieContributesNothing | sportsball/data/oddsportal/oddsportal_team_model.py:43 | A bookmaker missing from the history adds no prices, wherever it is listed. |
| OddsPortal.EntryOdds | sportsball/data/oddsportal/oddsportal_team_model.py:43-51 | Each history entry gives one price, built from its odds and timestamp with the bookmaker's name and id. |
| OddsPortal.CreateTeam | sportsball/data/oddsportal/oddsportal_team_model.py:54-65 | The team's identifier and name are the team name. It has no players, no ladder rank and no location, and its points are passed through. Field goals are given as None and every other statistic is derived from the (absent) players. |
| OddsPortal.CreateTeamOdds | sportsball/data/oddsportal/oddsportal_team_model.py:37-52 | With the odds data and outcome found, the team fails with a KeyError exactly when the outcome has no history. Otherwise its prices are the listed bookmakers' histories, concatenated. |
| AflTables.TeamIdentifier | sportsball/data/afl/afltables/afl_afltables_team_model.py:50-52 | The identifier has no slash, and with the extension put back it is the last path segment. |
| AflTables.IdentifierIsStem | sportsball/data/afl/afltables/afl_afltables_team_model.py:50-52 | The path `<dir>/<stem>.<ext>` gives `<stem>`, for any directories. |
| AflTables.FirstRanked | sportsball/data/afl/afltables/afl_afltables_team_model.py:60-63 | There is no rank exactly when no short code is ranked. |
| AflTables.FirstRankedIsEarliest | sportsball/data/afl/afltables/afl_afltables_team_model.py:60-63 | The rank is that of the earliest ranked code in list order. |
| AflTables.LadderRank | sportsball/data/afl/afltables/afl_afltables_team_model.py:57-63 | No ranks, or empty ranks, give no rank. With ranks, a name missing from the short-name table fails with KeyError on the name; a known name gets the rank of its first ranked short code, or none. |
| AflTables.LadderRankIsEarliestCode | sportsball/data/afl/afltables/afl_afltables_team_model.py:57-63 | The rank is that of the earliest of the team's short codes the ranks hold. |
| AflTables.NoRankWithoutRankedCode | sportsball/data/afl/afltables/afl_afltables_team_model.py:57-63 | A known team has no rank exactly when none of its short codes is ranked. |
| AflTables.SydneyTakesSouthMelbourneRank | sportsball/data/afl/afltables/afl_afltables_team_model.py:19-22 | Whenever "SM" is ranked, Sydney and South Melbourne both get its rank, even when "SY" is ranked too. |
| AflTables.BulldogsFallBackToFootscray | sportsball/data/afl/afltables/afl_afltables_team_model.py:26 | The Western Bulldogs take Footscray's rank when "WB" is unranked. |
| AflTables.CreateTeam | sportsball/data/afl/afltables/afl_afltables_team_model.py:40-75 | A page without a heading fails with ValueError, and otherwise the team is built exactly when the rank lookup succeeds. It has the URL's identifier and the heading as name, no prices, the given points, the looked-up rank and one player per player row, and each statistic is derived from those players. |

## Left out

- Fetching and parsing are not modelled: HTTP requests, workbook loading, BeautifulSoup, `urlparse` and the JSON decode of the OddsPortal page. The models start from the cells, the heading, the URL path and the parsed dictionaries.
- The `MEMORY.cache` decorators and the cache-expiry rules (`urls_expire_after`, the seven-day checks) are memoisation and wall-clock behaviour.
- Logging, and the news and social fields a `TeamModel` gets from Google News and X, are left out.
- Dates and floats are not modelled in detail. Date parsing, `float(...)`, `fromtimestamp` and time zones are parameters; prices and points are `real`, and percentages are exact ratios rather than IEEE quotients.
- The geocoder behind `GoogleAddressModel` is a parameter; its lookups are not modelled.
- pydantic validation beyond the `default_factory` order is left out: type coercion, aliases and schema extras.
- TeamStats.NewTeam, AflTables.CreateTeam, OddsPortal.CreateTeam, CombinedTeam.CombineTeams: `TeamModel` declares fields with no default: `news` and `social` (sportsball/data/team_model.py:1053-1054), `coaches` (:1185), `lbw` (:1188), `end_dt` (:1193), and every field from `runs` (:1271) to `version` (:2536), 254 fields in all in that last run. The AFL Tables and combined constructions (sportsball/data/afl/afltables/afl_afltables_team_model.py:64-75, sportsball/data/combined/combined_team_model.py:39-49) pass none of them. The OddsPortal one (sportsball/data/oddsportal/oddsportal_team_model.py:54-65) passes only `news` and `social`, so it still omits `coaches`, `lbw`, `end_dt` and every field from `runs` to `version`. so pydantic would raise a ValidationError at each. The model leaves these fields out and builds the team these constructions evidently intend.
- CombinedGame.CombineGames: `_team_models` calls the team merge with five arguments at sportsball/data/combined/combined_game_model.py:55, but the team merge takes two. The merge is modelled as the two-argument call, and the odds factory and the session are ignored.
- The outer `parsed_data["d"]["oddsdata"]["back"]` lookups in the OddsPortal page are not modelled: the model starts from `back`. The `odds_data["outcomeId"]` and `odds_data["history"]` lookups are fields of `OddsData`.
- Columns: the column separator, the game prefix and the team and player suffixes come from modules that are not part of this model, so they are parameters. `attendance_column` and `venue_identifier_column` are left out as constant joins that no modelled code reads.
- MinFeature.Process: the data frame is reduced to its column names and the three cells the feature reads; the other columns are not modelled.
- The league name in the AusSportsBetting ValueError message is not modelled; only the error kind is.
- The player, address, odds and player-page factories are parameters: `create_combined_player_model`, `create_combined_address_model`, `create_oddsportal_odds_model` and `create_afl_afltables_player_model`.
- TeamStats: the statistic names and their declaration positions are modelled for the `_calculate_*` fields of `TeamModel`. Their types are collapsed to `real`, so the Python `int` and `float` split is not kept.
