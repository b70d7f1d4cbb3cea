/** Feature-table column names (strategy/features/columns.py): every team
    and player column is named by joining fixed name parts and slot
    indices with the column separator, and the number of teams in a table
    is the length of the unbroken run of team identifier columns from
    slot 0. */
module Columns {
  import opened Wrappers
  import Strings

  /** The name parts the column names are built from. Only the team
      identifier and points names are fixed in the modelled files
      (data/team_model.py); the separator, the game prefix and the team
      and player suffixes come from modules that are not part of this
      model, so they are parameters. */
  datatype ColumnNames = ColumnNames(
    sep: string,
    gamePrefix: string,
    teamSuffix: string,
    playerSuffix: string,
    playerIdentifier: string)

  /** `TEAM_IDENTIFIER_COLUMN`. */
  const TeamIdentifier: string := "identifier"

  /** `TEAM_POINTS_COLUMN`. */
  const TeamPoints: string := "points"

  /** `team_column_prefix(team_idx)`: game prefix, team index and team
      suffix, separator-joined; spelled out, the game prefix, the
      separator, the decimal team index, the separator and the team
      suffix. */
  function TeamColumnPrefix(c: ColumnNames, team: int): (s: string)
    ensures s == c.gamePrefix + c.sep + Strings.IntToString(team) + c.sep + c.teamSuffix
  {
    Strings.Join3(c.sep, c.gamePrefix, Strings.IntToString(team), c.teamSuffix);
    Strings.Join(c.sep, [c.gamePrefix, Strings.IntToString(team), c.teamSuffix])
  }

  /** `team_identifier_column(team_idx)`: the team prefix, the separator
      and `"identifier"`. */
  function TeamIdentifierColumn(c: ColumnNames, team: int): (s: string)
    ensures s == TeamColumnPrefix(c, team) + c.sep + TeamIdentifier
  {
    Strings.Join2(c.sep, TeamColumnPrefix(c, team), TeamIdentifier);
    Strings.Join(c.sep, [TeamColumnPrefix(c, team), TeamIdentifier])
  }

  /** `team_points_column(team_idx)`. */
  function TeamPointsColumn(c: ColumnNames, team: int): (s: string)
    ensures s == TeamColumnPrefix(c, team) + c.sep + TeamPoints
  {
    Strings.Join2(c.sep, TeamColumnPrefix(c, team), TeamPoints);
    Strings.Join(c.sep, [TeamColumnPrefix(c, team), TeamPoints])
  }

  /** `player_column_prefix(team_idx, player_idx)`: the team prefix, then
      the player index only when one is given, then the player suffix. */
  function PlayerColumnPrefix(c: ColumnNames, team: int, player: Option<int>): (s: string)
    ensures player.None? ==> s == TeamColumnPrefix(c, team) + c.sep + c.playerSuffix
    ensures player.Some? ==>
              s == TeamColumnPrefix(c, team) + c.sep + Strings.IntToString(player.value) + c.sep + c.playerSuffix
  {
    var prefix := TeamColumnPrefix(c, team);
    if player.None? then
      Strings.Join2(c.sep, prefix, c.playerSuffix);
      Strings.Join(c.sep, [prefix, c.playerSuffix])
    else
      var index := Strings.IntToString(player.value);
      Strings.Join3(c.sep, prefix, index, c.playerSuffix);
      Strings.Join(c.sep, [prefix, index, c.playerSuffix])
  }

  /** `player_identifier_column(team_idx, player_idx)`: every player
      identifier column starts with its team's prefix. */
  function PlayerIdentifierColumn(c: ColumnNames, team: int, player: int): (s: string)
    ensures TeamColumnPrefix(c, team) + c.sep <= s
    ensures s == PlayerColumnPrefix(c, team, Some(player)) + c.sep + c.playerIdentifier
  {
    var prefix := PlayerColumnPrefix(c, team, Some(player));
    Strings.Join2(c.sep, prefix, c.playerIdentifier);
    Strings.Join(c.sep, [prefix, c.playerIdentifier])
  }

  /** Equal strings around a common prefix and suffix have equal middles. */
  lemma MiddleCancel(a: string, x: string, y: string, b: string)
    requires a + x + b == a + y + b
    ensures x == y
  {
    assert x == (a + x + b)[|a|..|a| + |x|];
    assert y == (a + y + b)[|a|..|a| + |y|];
  }

  /** A string and the same string with a non-empty tail are different. */
  lemma LongerDiffers(a: string, x: string)
    requires |x| > 0
    ensures a != a + x
  {
    assert |a + x| > |a|;
  }

  /** Different team slots have different prefixes. */
  lemma TeamColumnPrefixInjective(c: ColumnNames, i: int, j: int)
    requires TeamColumnPrefix(c, i) == TeamColumnPrefix(c, j)
    ensures i == j
  {
    var a := c.gamePrefix + c.sep;
    var b := c.sep + c.teamSuffix;
    var si, sj := Strings.IntToString(i), Strings.IntToString(j);
    assert a + si + b == TeamColumnPrefix(c, i);
    assert a + sj + b == TeamColumnPrefix(c, j);
    MiddleCancel(a, si, sj, b);
    Strings.IntToStringInjective(i, j);
  }

  /** Different team slots have different identifier columns. */
  lemma TeamIdentifierColumnInjective(c: ColumnNames, i: int, j: int)
    requires TeamIdentifierColumn(c, i) == TeamIdentifierColumn(c, j)
    ensures i == j
  {
    var x, y := TeamColumnPrefix(c, i), TeamColumnPrefix(c, j);
    assert [] + x + (c.sep + TeamIdentifier) == TeamIdentifierColumn(c, i);
    assert [] + y + (c.sep + TeamIdentifier) == TeamIdentifierColumn(c, j);
    MiddleCancel([], x, y, c.sep + TeamIdentifier);
    TeamColumnPrefixInjective(c, i, j);
  }

  /** No identifier column is a points column, whatever the slots: the
      two names end in different letters. */
  lemma IdentifierIsNotPoints(c: ColumnNames, i: int, j: int)
    ensures TeamIdentifierColumn(c, i) != TeamPointsColumn(c, j)
  {
    var s, t := TeamIdentifierColumn(c, i), TeamPointsColumn(c, j);
    assert s[|s| - 1] == 'r';
    assert t[|t| - 1] == 's';
  }

  /** The player prefix with no player index differs from every prefix
      with one, and different player indices give different prefixes. */
  lemma PlayerColumnPrefixDistinct(c: ColumnNames, team: int, p: int, q: int)
    ensures PlayerColumnPrefix(c, team, None) != PlayerColumnPrefix(c, team, Some(p))
    ensures PlayerColumnPrefix(c, team, Some(p)) == PlayerColumnPrefix(c, team, Some(q)) ==> p == q
  {
    var a := TeamColumnPrefix(c, team) + c.sep;
    var b := c.sep + c.playerSuffix;
    var sp, sq := Strings.IntToString(p), Strings.IntToString(q);
    assert PlayerColumnPrefix(c, team, Some(p)) == a + sp + b;
    assert PlayerColumnPrefix(c, team, Some(q)) == a + sq + b;
    assert PlayerColumnPrefix(c, team, None) == a + c.playerSuffix;
    assert |a + sp + b| > |a + c.playerSuffix|;
    if PlayerColumnPrefix(c, team, Some(p)) == PlayerColumnPrefix(c, team, Some(q)) {
      MiddleCancel(a, sp, sq, b);
      Strings.IntToStringInjective(p, q);
    }
  }

  /** `n` is the number of teams in a table with these columns: the
      identifier columns of slots `0..n-1` are there and that of slot `n`
      is not. */
  ghost predicate IsTeamCount(c: ColumnNames, columns: seq<string>, n: nat) {
    && (forall k :: 0 <= k < n ==> TeamIdentifierColumn(c, k) in columns)
    && TeamIdentifierColumn(c, n) !in columns
  }

  /** The identifier columns of slots `0..n-1`. */
  function SlotColumns(c: ColumnNames, n: nat): set<string> {
    if n == 0 then {} else SlotColumns(c, n - 1) + {TeamIdentifierColumn(c, n - 1)}
  }

  /** Slot `n`'s identifier column is none of the earlier slots'. */
  lemma {:induction false} NewSlotColumn(c: ColumnNames, n: nat, m: nat)
    requires m <= n
    ensures TeamIdentifierColumn(c, n) !in SlotColumns(c, m)
  {
    if m > 0 {
      NewSlotColumn(c, n, m - 1);
      if TeamIdentifierColumn(c, n) == TeamIdentifierColumn(c, m - 1) {
        TeamIdentifierColumnInjective(c, n, m - 1);
      }
    }
  }

  lemma Shrinks(all: set<string>, seen: set<string>, x: string)
    requires x in all && x !in seen
    ensures |all - (seen + {x})| < |all - seen|
  {
    assert all - (seen + {x}) == (all - seen) - {x};
  }

  /** The identifier columns of slots `0..n-1` are all present. */
  predicate SlotsPresent(c: ColumnNames, columns: seq<string>, n: nat) {
    n == 0 || (SlotsPresent(c, columns, n - 1) && TeamIdentifierColumn(c, n - 1) in columns)
  }

  lemma {:induction false} SlotsPresentAll(c: ColumnNames, columns: seq<string>, n: nat)
    requires SlotsPresent(c, columns, n)
    ensures forall k :: 0 <= k < n ==> TeamIdentifierColumn(c, k) in columns
  {
    if n > 0 {
      SlotsPresentAll(c, columns, n - 1);
    }
  }

  /** `find_team_count(df)`: counts slots upwards from 0 until a team
      identifier column is missing. The count is bounded because distinct
      slots name distinct columns. */
  method FindTeamCount(c: ColumnNames, columns: seq<string>) returns (n: nat)
    ensures IsTeamCount(c, columns, n)
  {
    n := 0;
    ghost var all := set x | x in columns;
    while TeamIdentifierColumn(c, n) in columns
      invariant SlotColumns(c, n) <= all
      invariant SlotsPresent(c, columns, n)
      decreases |all - SlotColumns(c, n)|
    {
      NewSlotColumn(c, n, n);
      Shrinks(all, SlotColumns(c, n), TeamIdentifierColumn(c, n));
      n := n + 1;
    }
    SlotsPresentAll(c, columns, n);
  }

  /** The team count is determined by the columns: one number at most
      meets the definition. So a gap stops the count, and a table
      without a slot-0 identifier column has no teams. */
  lemma TeamCountIsUnique(c: ColumnNames, columns: seq<string>, n: nat, m: nat)
    requires IsTeamCount(c, columns, n) && IsTeamCount(c, columns, m)
    ensures n == m
  {
  }
}
