/** The entities the merge layer reconciles. Each is an immutable value:
    one scraped source's view of a game, team, venue, player or price, in
    which any optional field may be `None`. Only the fields the modelled
    code reads or writes are kept. */
module Models {
  import opened Wrappers

  /** A point in time (Python's `datetime.datetime`), kept opaque. */
  type Timestamp = int

  /** The leagues the repository knows. */
  datatype League = AFL | NFL | NBA | NHL | EPL | NCAAF

  /** The team statistics that `TeamModel` derives when they are not
      given, in the order the fields are declared. A player carries the
      summed ones under the same names. */
  datatype Stat =
    | Kicks | FieldGoals | FieldGoalsAttempted | OffensiveRebounds | Assists
    | Turnovers | Marks | Handballs | Disposals | Goals | Behinds | HitOuts
    | Tackles | Rebounds | Insides | Clearances | Clangers | FreeKicksFor
    | FreeKicksAgainst | BrownlowVotes | ContestedPossessions
    | UncontestedPossessions | ContestedMarks | MarksInside | OnePercenters
    | Bounces | GoalAssists | FieldGoalsPercentage | ThreePointFieldGoals
    | ThreePointFieldGoalsAttempted | ThreePointFieldGoalsPercentage
    | FreeThrows | FreeThrowsAttempted | FreeThrowsPercentage
    | DefensiveRebounds | TotalRebounds | Steals | Blocks | PersonalFouls
    | ForcedFumbles | FumblesRecovered | FumblesTouchdowns

  /** A postal address, produced by collaborators outside the model
      (geocoder, address combiner); only its identity matters here. */
  datatype Address = Address(formatted: string)

  datatype Venue = Venue(
    identifier: string,
    name: string,
    address: Option<Address>,
    isGrass: Option<bool>,
    isIndoor: Option<bool>)

  datatype Bookie = Bookie(identifier: string, name: string)

  /** One price offered by one bookmaker at one time. */
  datatype Odds = Odds(odds: real, dt: Timestamp, bookie: Bookie)

  /** A player; a statistic missing from `stats` is `None`. */
  datatype Player = Player(identifier: string, jersey: Option<string>, stats: map<Stat, real>)

  /** A team's validated statistic fields (each present key was either
      given or derived; its value may still be `None`). */
  type StatRow = map<Stat, Option<real>>

  datatype Team = Team(
    identifier: string,
    name: string,
    location: Option<string>,
    players: seq<Player>,
    odds: seq<Odds>,
    points: Option<real>,
    ladderRank: Option<int>,
    stats: StatRow)

  datatype Game = Game(
    dt: Timestamp,
    week: Option<int>,
    gameNumber: Option<int>,
    venue: Option<Venue>,
    teams: seq<Team>,
    endDt: Option<Timestamp>,
    attendance: Option<int>,
    league: League,
    year: Option<int>,
    seasonType: Option<string>)
}
