/** The AusSportsBetting historical-results spreadsheet
    (aussportsbetting/aussportsbetting_league_model.py): which leagues it
    serves and how one sheet row decodes into a game, cell by cell. A row
    is the list of its cells' texts (`str(cell.value)`); parsing a date or
    a number is not part of this model and is given as a function that
    may fail. */
module AusSportsBetting {
  import opened Wrappers
  import opened Models
  import Strings
  import Fold

  /** `dateutil.parser.parse`. */
  type DateParser = string -> Result<Timestamp, Error>

  /** `float(text)`. */
  type NumberParser = string -> Result<real, Error>

  /** The spreadsheet's historical data for AFL. */
  const AflSheet: string := "https://www.aussportsbetting.com/historical_data/afl.xlsx"

  /** The spreadsheet's historical data for NFL. */
  const NflSheet: string := "https://www.aussportsbetting.com/historical_data/nfl.xlsx"

  /** The constructor's league check: the sheet for AFL and NFL, a
      `ValueError` for every other league. */
  function SpreadsheetUrl(league: League): (r: Result<string, Error>)
    ensures r.Success? <==> league == AFL || league == NFL
    ensures league == AFL ==> r == Success(AflSheet)
    ensures league == NFL ==> r == Success(NflSheet)
    ensures r.Failure? ==> r.error.ValueError?
  {
    match league
    case AFL => Success(AflSheet)
    case NFL => Success(NflSheet)
    case _ => Failure(ValueError("League not supported by aus sports betting."))
  }

  /** What one row says about a game, handed on to the game builder. */
  datatype RowGame = RowGame(
    dt: Timestamp,
    homeTeam: string,
    awayTeam: string,
    venue: Option<string>,
    homePoints: real,
    awayPoints: real,
    homeOdds: real,
    awayOdds: real,
    league: League)

  /** `row[i]`: a row shorter than that raises `IndexError`. */
  function CellAt(row: seq<string>, i: nat): (r: Result<string, Error>)
    ensures r.Success? <==> i < |row|
    ensures r.Success? ==> r.value == row[i]
    ensures r.Failure? ==> r.error == IndexError
  {
    if i < |row| then Success(row[i]) else Failure(IndexError)
  }

  /** A title or empty row: its first cell reads `Date` or `None`. */
  predicate IsSkipped(row: seq<string>) {
    |row| > 0 && (row[0] == "Date" || row[0] == "None")
  }

  /** The date and time cells: for AFL the time cell after the date is
      read and the two are parsed together, otherwise the date cell alone
      is parsed. Answers the time and the cursor after the cells read. */
  function ReadWhen(league: League, row: seq<string>, dateCell: string, date: DateParser)
    : Result<(Timestamp, nat), Error>
  {
    var cursor := 1;
    if league == AFL then
      var timeCell :- CellAt(row, cursor);
      var dt :- date(Strings.Join(" ", [dateCell, timeCell]));
      Success((dt, cursor + 1))
    else
      var dt :- date(dateCell);
      Success((dt, cursor))
  }

  /** The home and away team cells at the cursor, then for AFL the venue
      cell; every text is stripped. Answers them and the cursor after. */
  function ReadSides(league: League, row: seq<string>, cursor: nat)
    : Result<(string, string, Option<string>, nat), Error>
  {
    var home :- CellAt(row, cursor);
    var away :- CellAt(row, cursor + 1);
    var cursor := cursor + 2;
    if league == AFL then
      var v :- CellAt(row, cursor);
      Success((Strings.Strip(home), Strings.Strip(away), Some(Strings.Strip(v)), cursor + 1))
    else Success((Strings.Strip(home), Strings.Strip(away), None, cursor))
  }

  /** The two scores at the cursor; then, skipping three columns for NFL
      and five otherwise, the home price; then, skipping three more
      columns for NFL only, the away price. */
  function ReadNumbers(league: League, row: seq<string>, cursor: nat, number: NumberParser)
    : Result<(real, real, real, real), Error>
  {
    var homePointsCell :- CellAt(row, cursor);
    var homePoints :- number(homePointsCell);
    var awayPointsCell :- CellAt(row, cursor + 1);
    var awayPoints :- number(awayPointsCell);
    var cursor := cursor + 2 + (if league == NFL then 3 else 5);
    var homeOddsCell :- CellAt(row, cursor);
    var homeOdds :- number(homeOddsCell);
    var cursor := cursor + 1 + (if league == NFL then 3 else 0);
    var awayOddsCell :- CellAt(row, cursor);
    var awayOdds :- number(awayOddsCell);
    Success((homePoints, awayPoints, homeOdds, awayOdds))
  }

  /** `_row_to_game(row)`, which walks the cells with a cursor: `None`
      for a skipped row, otherwise the decoded game, or the first error
      met. */
  function RowToGame(league: League, row: seq<string>, date: DateParser, number: NumberParser)
    : (r: Result<Option<RowGame>, Error>)
    ensures r.Success? && r.value.None? <==> IsSkipped(row)
    ensures |row| == 0 ==> r == Failure(IndexError)
  {
    var dateCell :- CellAt(row, 0);
    if dateCell == "Date" || dateCell == "None" then Success(None)
    else
      var (dt, cursor) :- ReadWhen(league, row, dateCell, date);
      var (home, away, venue, cursor) :- ReadSides(league, row, cursor);
      var (homePoints, awayPoints, homeOdds, awayOdds) :- ReadNumbers(league, row, cursor, number);
      Success(Some(RowGame(dt, home, away, venue, homePoints, awayPoints, homeOdds, awayOdds, league)))
  }

  /** Where each field sits in a row of a league's sheet. */
  datatype Layout = Layout(
    time: Option<nat>, home: nat, away: nat, venue: Option<nat>,
    homePoints: nat, awayPoints: nat, homeOdds: nat, awayOdds: nat)

  /** The AFL sheet: date, time, home, away, venue, the two scores, then
      after five other columns the two prices. */
  const AflLayout := Layout(Some(1), 2, 3, Some(4), 5, 6, 12, 13)

  /** The NFL sheet: date, home, away, the two scores, then the home price
      at 8 and the away price at 12. */
  const NflLayout := Layout(None, 1, 2, None, 3, 4, 8, 12)

  /** Every cell of `row` the layout reads is there and parses. */
  ghost predicate Readable(l: Layout, row: seq<string>, date: DateParser, number: NumberParser) {
    && (l.time.Some? ==> l.time.value < |row|) && (l.venue.Some? ==> l.venue.value < |row|)
    && |row| > 0 && l.home < |row| && l.away < |row|
    && l.homePoints < |row| && l.awayPoints < |row| && l.homeOdds < |row| && l.awayOdds < |row|
    && (l.time.Some? ==> date(Strings.Join(" ", [row[0], row[l.time.value]])).Success?)
    && (l.time.None? ==> date(row[0]).Success?)
    && number(row[l.homePoints]).Success? && number(row[l.awayPoints]).Success?
    && number(row[l.homeOdds]).Success? && number(row[l.awayOdds]).Success?
  }

  /** The game a layout reads from a readable row. */
  ghost function ByLayout(l: Layout, league: League, row: seq<string>, date: DateParser, number: NumberParser): RowGame
    requires Readable(l, row, date, number)
  {
    RowGame(
      if l.time.Some? then date(Strings.Join(" ", [row[0], row[l.time.value]])).value else date(row[0]).value,
      Strings.Strip(row[l.home]), Strings.Strip(row[l.away]),
      if l.venue.Some? then Some(Strings.Strip(row[l.venue.value])) else None,
      number(row[l.homePoints]).value, number(row[l.awayPoints]).value,
      number(row[l.homeOdds]).value, number(row[l.awayOdds]).value,
      league)
  }

  lemma AflWhen(row: seq<string>, date: DateParser, number: NumberParser)
    requires Readable(AflLayout, row, date, number)
    ensures ReadWhen(AFL, row, row[0], date) == Success((ByLayout(AflLayout, AFL, row, date, number).dt, 2))
  {
  }

  lemma AflSides(row: seq<string>, date: DateParser, number: NumberParser)
    requires Readable(AflLayout, row, date, number)
    ensures var g := ByLayout(AflLayout, AFL, row, date, number);
            ReadSides(AFL, row, 2) == Success((g.homeTeam, g.awayTeam, g.venue, 5))
  {
  }

  lemma AflNumbers(row: seq<string>, date: DateParser, number: NumberParser)
    requires Readable(AflLayout, row, date, number)
    ensures var g := ByLayout(AflLayout, AFL, row, date, number);
            ReadNumbers(AFL, row, 5, number) == Success((g.homePoints, g.awayPoints, g.homeOdds, g.awayOdds))
  {
  }

  /** The cursor walk reads an AFL row by the AFL layout. */
  lemma AflRowLayout(row: seq<string>, date: DateParser, number: NumberParser)
    requires !IsSkipped(row) && Readable(AflLayout, row, date, number)
    ensures RowToGame(AFL, row, date, number) == Success(Some(ByLayout(AflLayout, AFL, row, date, number)))
  {
    AflWhen(row, date, number);
    AflSides(row, date, number);
    AflNumbers(row, date, number);
  }

  /** The cursor walk reads an NFL row by the NFL layout; an NFL game has
      no venue. */
  lemma NflRowLayout(row: seq<string>, date: DateParser, number: NumberParser)
    requires !IsSkipped(row) && Readable(NflLayout, row, date, number)
    ensures RowToGame(NFL, row, date, number) == Success(Some(ByLayout(NflLayout, NFL, row, date, number)))
    ensures RowToGame(NFL, row, date, number).value.value.venue.None?
  {
    var g := ByLayout(NflLayout, NFL, row, date, number);
    assert ReadWhen(NFL, row, row[0], date) == Success((g.dt, 1));
    assert ReadSides(NFL, row, 1) == Success((g.homeTeam, g.awayTeam, None, 3));
    assert ReadNumbers(NFL, row, 3, number) == Success((g.homePoints, g.awayPoints, g.homeOdds, g.awayOdds));
  }

  /** The `games` generator over the sheet's rows: the games of the rows
      that decode to one, in sheet order, up to the first row that
      raises; the error, if any, comes with them. */
  function Games(league: League, rows: seq<seq<string>>, date: DateParser, number: NumberParser)
    : (r: (seq<RowGame>, Option<Error>))
    ensures |r.0| <= |rows|
    ensures r.1.None? <==> AllDecode(league, rows, date, number)
  {
    if |rows| == 0 then ([], None)
    else
      AllDecodeCons(league, rows, date, number);
      var r := RowToGame(league, rows[0], date, number);
      if r.Failure? then ([], Some(r.error))
      else
        var rest := Games(league, rows[1..], date, number);
        (Fold.Present([r.value]) + rest.0, rest.1)
  }

  /** What each row decodes to, ignoring errors: the game or nothing. */
  function RowGames(league: League, rows: seq<seq<string>>, date: DateParser, number: NumberParser)
    : (gs: seq<Option<RowGame>>)
    ensures |gs| == |rows|
  {
    if |rows| == 0 then []
    else
      var r := RowToGame(league, rows[0], date, number);
      [if r.Success? then r.value else None] + RowGames(league, rows[1..], date, number)
  }

  /** Every row of `rows` decodes without raising. */
  predicate AllDecode(league: League, rows: seq<seq<string>>, date: DateParser, number: NumberParser) {
    forall i :: 0 <= i < |rows| ==> RowToGame(league, rows[i], date, number).Success?
  }

  /** Every row decodes exactly when the first does and so do the rest. */
  lemma AllDecodeCons(league: League, rows: seq<seq<string>>, date: DateParser, number: NumberParser)
    requires |rows| > 0
    ensures AllDecode(league, rows, date, number) <==>
            RowToGame(league, rows[0], date, number).Success? && AllDecode(league, rows[1..], date, number)
  {
    assert forall i :: 0 <= i < |rows[1..]| ==> rows[1..][i] == rows[i + 1];
    if RowToGame(league, rows[0], date, number).Success? && AllDecode(league, rows[1..], date, number) {
      forall i | 0 <= i < |rows|
        ensures RowToGame(league, rows[i], date, number).Success?
      {
        if i > 0 {
          assert rows[i] == rows[1..][i - 1];
        }
      }
    }
  }

  /** When no row raises, the generator yields exactly the decoded games,
      in sheet order, and no error. */
  lemma {:induction false} CleanSheetGames(league: League, rows: seq<seq<string>>,
                                            date: DateParser, number: NumberParser)
    requires AllDecode(league, rows, date, number)
    ensures Games(league, rows, date, number) == (Fold.Present(RowGames(league, rows, date, number)), None)
  {
    if |rows| > 0 {
      assert RowToGame(league, rows[0], date, number).Success?;
      assert AllDecode(league, rows[1..], date, number) by {
        forall i | 0 <= i < |rows[1..]|
          ensures RowToGame(league, rows[1..][i], date, number).Success?
        {
          assert rows[1..][i] == rows[i + 1];
        }
      }
      CleanSheetGames(league, rows[1..], date, number);
      var x := RowToGame(league, rows[0], date, number).value;
      assert RowGames(league, rows, date, number) == [x] + RowGames(league, rows[1..], date, number);
      Fold.PresentAppend([x], RowGames(league, rows[1..], date, number));
    }
  }

  /** The generator stops at the first row that raises: it yields the
      games of the rows before it and that row's error, and never looks
      at the rows after it. */
  lemma {:induction false} FirstErrorStops(league: League, a: seq<seq<string>>, row: seq<string>,
                                           b: seq<seq<string>>, date: DateParser, number: NumberParser)
    requires AllDecode(league, a, date, number)
    requires RowToGame(league, row, date, number).Failure?
    ensures Games(league, a + [row] + b, date, number) ==
            (Fold.Present(RowGames(league, a, date, number)), Some(RowToGame(league, row, date, number).error))
  {
    if |a| == 0 {
      assert a + [row] + b == [row] + b;
    } else {
      assert RowToGame(league, a[0], date, number).Success?;
      assert (a + [row] + b)[0] == a[0];
      assert (a + [row] + b)[1..] == a[1..] + [row] + b;
      assert AllDecode(league, a[1..], date, number) by {
        forall i | 0 <= i < |a[1..]|
          ensures RowToGame(league, a[1..][i], date, number).Success?
        {
          assert a[1..][i] == a[i + 1];
        }
      }
      FirstErrorStops(league, a[1..], row, b, date, number);
      var x := RowToGame(league, a[0], date, number).value;
      assert RowGames(league, a, date, number) == [x] + RowGames(league, a[1..], date, number);
      Fold.PresentAppend([x], RowGames(league, a[1..], date, number));
    }
  }

  /** One step of the generator: the first row, then the rest. */
  lemma GamesCons(league: League, row: seq<string>, rest: seq<seq<string>>, date: DateParser, number: NumberParser)
    ensures var r := RowToGame(league, row, date, number);
            Games(league, [row] + rest, date, number) ==
            if r.Failure? then ([], Some(r.error))
            else (Fold.Present([r.value]) + Games(league, rest, date, number).0, Games(league, rest, date, number).1)
  {
    assert ([row] + rest)[0] == row;
    assert ([row] + rest)[1..] == rest;
  }

  /** Title and empty rows contribute nothing: inserting one anywhere
      leaves the games and the error unchanged. */
  lemma {:induction false} SkippedRowIsIgnored(league: League, a: seq<seq<string>>, row: seq<string>,
                                               b: seq<seq<string>>, date: DateParser, number: NumberParser)
    requires IsSkipped(row)
    ensures Games(league, a + [row] + b, date, number) == Games(league, a + b, date, number)
  {
    assert RowToGame(league, row, date, number) == Success(None);
    if |a| == 0 {
      assert a + [row] + b == [row] + b;
      assert a + b == b;
      GamesCons(league, row, b, date, number);
      var g := Games(league, b, date, number);
      assert Fold.Present<RowGame>([None]) + g.0 == g.0;
      assert (g.0, g.1) == g;
    } else {
      var s1, s2 := a[1..] + [row] + b, a[1..] + b;
      assert a + [row] + b == [a[0]] + s1;
      assert a + b == [a[0]] + s2;
      SkippedRowIsIgnored(league, a[1..], row, b, date, number);
      GamesCons(league, a[0], s1, date, number);
      GamesCons(league, a[0], s2, date, number);
      assert Games(league, [a[0]] + s1, date, number) == Games(league, [a[0]] + s2, date, number);
    }
  }
}
