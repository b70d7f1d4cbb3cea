/** The team statistics `TeamModel` derives for itself (team_model.py).
    Every derived field is wired through a default factory that receives
    the fields validated so far: summed over the players that have the
    statistic, a made/attempted percentage, or offensive plus defensive
    rebounds. Fields are validated in declaration order, so a factory can
    only see fields declared above it. */
module TeamStats {
  import opened Wrappers
  import opened Models
  import Fold

  // ---------------------------------------------------------------------
  // Sums over players

  function Sum(xs: seq<real>): real {
    if |xs| == 0 then 0.0 else xs[0] + Sum(xs[1..])
  }

  lemma {:induction false} SumSnoc(xs: seq<real>, x: real)
    ensures Sum(xs + [x]) == Sum(xs) + x
  {
    if |xs| == 0 {
      assert xs + [x] == [x];
      assert [x][1..] == [];
    } else {
      assert (xs + [x])[1..] == xs[1..] + [x];
      SumSnoc(xs[1..], x);
    }
  }

  lemma {:induction false} SumAppend(xs: seq<real>, ys: seq<real>)
    ensures Sum(xs + ys) == Sum(xs) + Sum(ys)
  {
    if |xs| == 0 {
      assert xs + ys == ys;
    } else {
      assert (xs + ys)[1..] == xs[1..] + ys;
      SumAppend(xs[1..], ys);
    }
  }

  /** A player's value for a statistic (`player.kicks` and friends). */
  function PlayerValue(p: Player, s: Stat): Option<real> {
    if s in p.stats then Some(p.stats[s]) else None
  }

  /** The statistic of every player, in roster order. */
  function ValuesOf(players: seq<Player>, s: Stat): (vs: seq<Option<real>>)
    ensures |vs| == |players|
  {
    if |players| == 0 then []
    else ValuesOf(players[..|players| - 1], s) + [PlayerValue(players[|players| - 1], s)]
  }

  lemma {:induction false} ValuesOfIndex(players: seq<Player>, s: Stat)
    ensures forall i :: 0 <= i < |players| ==> ValuesOf(players, s)[i] == PlayerValue(players[i], s)
  {
    if |players| > 0 {
      var init := players[..|players| - 1];
      ValuesOfIndex(init, s);
      assert forall i :: 0 <= i < |init| ==> init[i] == players[i];
    }
  }

  lemma {:induction false} ValuesOfAppend(a: seq<Player>, b: seq<Player>, s: Stat)
    ensures ValuesOf(a + b, s) == ValuesOf(a, s) + ValuesOf(b, s)
  {
    if |b| == 0 {
      assert a + b == a;
    } else {
      var init := b[..|b| - 1];
      assert (a + b)[..|a + b| - 1] == a + init;
      assert (a + b)[|a + b| - 1] == b[|b| - 1];
      ValuesOfAppend(a, init, s);
    }
  }

  /** A summed team statistic: `None` when no player has it, otherwise
      the sum of the values the players have. */
  function PlayerSum(players: seq<Player>, s: Stat): Option<real> {
    var present := Fold.Present(ValuesOf(players, s));
    if |present| == 0 then None else Some(Sum(present))
  }

  /** The loop of `_calculate_kicks` and its siblings: a running total
      and a flag recording whether any player had the statistic. */
  method SumPlayers(players: seq<Player>, s: Stat) returns (r: Option<real>)
    ensures r == PlayerSum(players, s)
  {
    var total := 0.0;
    var found := false;
    ghost var seen: seq<real> := [];
    var i := 0;
    while i < |players|
      invariant 0 <= i <= |players|
      invariant seen == Fold.Present(ValuesOf(players[..i], s))
      invariant found <==> |seen| > 0
      invariant total == Sum(seen)
    {
      PresentStep(players, i, s);
      if s in players[i].stats {
        SumSnoc(seen, players[i].stats[s]);
        seen := seen + [players[i].stats[s]];
        found := true;
        total := total + players[i].stats[s];
      }
      i := i + 1;
    }
    assert players[..i] == players;
    if found {
      r := Some(total);
    } else {
      r := None;
    }
  }

  /** One more player adds its value, if it has one, to the present
      values. */
  lemma PresentStep(players: seq<Player>, i: nat, s: Stat)
    requires i < |players|
    ensures Fold.Present(ValuesOf(players[..i + 1], s)) ==
            Fold.Present(ValuesOf(players[..i], s)) +
            (if s in players[i].stats then [players[i].stats[s]] else [])
  {
    assert players[..i + 1][..i] == players[..i];
    assert ValuesOf(players[..i + 1], s) == ValuesOf(players[..i], s) + [PlayerValue(players[i], s)];
    Fold.PresentSnoc(ValuesOf(players[..i], s), PlayerValue(players[i], s));
  }

  /** The sum is `None` exactly when no player has the statistic. */
  lemma PlayerSumIsNone(players: seq<Player>, s: Stat)
    ensures PlayerSum(players, s).None? <==>
            forall i :: 0 <= i < |players| ==> s !in players[i].stats
  {
    var vs := ValuesOf(players, s);
    ValuesOfIndex(players, s);
    Fold.PresentMembers(vs);
    if |Fold.Present(vs)| > 0 {
      assert Some(Fold.Present(vs)[0]) in vs;
    }
  }

  /** A player without the statistic contributes nothing, wherever it
      stands in the list. */
  lemma SumSkipsAbsent(a: seq<Player>, p: Player, b: seq<Player>, s: Stat)
    requires s !in p.stats
    ensures PlayerSum(a + [p] + b, s) == PlayerSum(a + b, s)
  {
    var va, vb := ValuesOf(a, s), ValuesOf(b, s);
    var none: Option<real> := None;
    ValuesOfAppend(a + [p], b, s);
    ValuesOfAppend(a, [p], s);
    ValuesOfAppend(a, b, s);
    assert [p][..0] == [];
    assert ValuesOf([p], s) == [none];
    Fold.PresentAppend(va + [none], vb);
    Fold.PresentSnoc(va, none);
    Fold.PresentAppend(va, vb);
    assert ValuesOf(a + [p] + b, s) == va + [none] + vb;
    assert Fold.Present(ValuesOf(a + [p] + b, s)) == Fold.Present(ValuesOf(a + b, s));
  }

  lemma PresentSumAppend(u: seq<Option<real>>, v: seq<Option<real>>)
    ensures |Fold.Present(u + v)| == |Fold.Present(u)| + |Fold.Present(v)|
    ensures Sum(Fold.Present(u + v)) == Sum(Fold.Present(u)) + Sum(Fold.Present(v))
  {
    Fold.PresentAppend(u, v);
    SumAppend(Fold.Present(u), Fold.Present(v));
  }

  /** Splitting the roster splits the sum. */
  lemma SumOverConcatenation(a: seq<Player>, b: seq<Player>, s: Stat, x: real, y: real)
    requires PlayerSum(a, s) == Some(x) && PlayerSum(b, s) == Some(y)
    ensures PlayerSum(a + b, s) == Some(x + y)
  {
    ValuesOfAppend(a, b, s);
    PresentSumAppend(ValuesOf(a, s), ValuesOf(b, s));
  }

  // ---------------------------------------------------------------------
  // Fields computed from other fields

  /** `_calcualte_field_goals_percentage` and the other two percentages. */
  function Percentage(made: Option<real>, attempted: Option<real>): (r: Option<real>)
    ensures r.Some? <==> made.Some? && attempted.Some?
    ensures r.Some? && attempted.value == 0.0 ==> r.value == 0.0
    ensures r.Some? && attempted.value != 0.0 ==> r.value * attempted.value == made.value
  {
    match (made, attempted)
    case (Some(m), Some(a)) => if a == 0.0 then Some(0.0) else Some(m / a)
    case _ => None
  }

  /** `_calculate_total_rebounds`. */
  function Added(a: Option<real>, b: Option<real>): (r: Option<real>)
    ensures r.Some? <==> a.Some? && b.Some?
    ensures r.Some? ==> r.value - a.value == b.value
  {
    match (a, b)
    case (Some(x), Some(y)) => Some(x + y)
    case _ => None
  }

  // ---------------------------------------------------------------------
  // Declaration order

  /** The number of derived statistic fields. */
  const FieldCount: nat := 42

  /** The field declared `i`-th among the derived statistics
      (team_model.py, lines 1048 to 1266). */
  function FieldAt(i: nat): Stat
    requires i < FieldCount
  {
    match i
    case 0 => Kicks
    case 1 => FieldGoals
    case 2 => FieldGoalsAttempted
    case 3 => OffensiveRebounds
    case 4 => Assists
    case 5 => Turnovers
    case 6 => Marks
    case 7 => Handballs
    case 8 => Disposals
    case 9 => Goals
    case 10 => Behinds
    case 11 => HitOuts
    case 12 => Tackles
    case 13 => Rebounds
    case 14 => Insides
    case 15 => Clearances
    case 16 => Clangers
    case 17 => FreeKicksFor
    case 18 => FreeKicksAgainst
    case 19 => BrownlowVotes
    case 20 => ContestedPossessions
    case 21 => UncontestedPossessions
    case 22 => ContestedMarks
    case 23 => MarksInside
    case 24 => OnePercenters
    case 25 => Bounces
    case 26 => GoalAssists
    case 27 => FieldGoalsPercentage
    case 28 => ThreePointFieldGoals
    case 29 => ThreePointFieldGoalsAttempted
    case 30 => ThreePointFieldGoalsPercentage
    case 31 => FreeThrows
    case 32 => FreeThrowsAttempted
    case 33 => FreeThrowsPercentage
    case 34 => DefensiveRebounds
    case 35 => TotalRebounds
    case 36 => Steals
    case 37 => Blocks
    case 38 => PersonalFouls
    case 39 => ForcedFumbles
    case 40 => FumblesRecovered
    case _ => FumblesTouchdowns
  }

  /** The position of a field in declaration order; `FieldAt` inverts it,
      so every field is declared exactly once. */
  function Pos(s: Stat): (n: nat)
    ensures n < FieldCount && FieldAt(n) == s
  {
    match s
    case Kicks => 0
    case FieldGoals => 1
    case FieldGoalsAttempted => 2
    case OffensiveRebounds => 3
    case Assists => 4
    case Turnovers => 5
    case Marks => 6
    case Handballs => 7
    case Disposals => 8
    case Goals => 9
    case Behinds => 10
    case HitOuts => 11
    case Tackles => 12
    case Rebounds => 13
    case Insides => 14
    case Clearances => 15
    case Clangers => 16
    case FreeKicksFor => 17
    case FreeKicksAgainst => 18
    case BrownlowVotes => 19
    case ContestedPossessions => 20
    case UncontestedPossessions => 21
    case ContestedMarks => 22
    case MarksInside => 23
    case OnePercenters => 24
    case Bounces => 25
    case GoalAssists => 26
    case FieldGoalsPercentage => 27
    case ThreePointFieldGoals => 28
    case ThreePointFieldGoalsAttempted => 29
    case ThreePointFieldGoalsPercentage => 30
    case FreeThrows => 31
    case FreeThrowsAttempted => 32
    case FreeThrowsPercentage => 33
    case DefensiveRebounds => 34
    case TotalRebounds => 35
    case Steals => 36
    case Blocks => 37
    case PersonalFouls => 38
    case ForcedFumbles => 39
    case FumblesRecovered => 40
    case FumblesTouchdowns => 41
  }

  /** `Pos` also inverts `FieldAt`: the declaration order is a
      bijection between positions and fields. */
  lemma PosOfFieldAt(i: nat)
    requires i < FieldCount
    ensures Pos(FieldAt(i)) == i
  {
    if i < 11 {
      PosOfFieldAtFrom0(i);
    } else if i < 21 {
      PosOfFieldAtFrom11(i);
    } else if i < 32 {
      PosOfFieldAtFrom21(i);
    } else {
      PosOfFieldAtFrom32(i);
    }
  }

  lemma PosOfFieldAtFrom0(i: nat)
    requires 0 <= i < 11
    ensures Pos(FieldAt(i)) == i
  {
    match i
    case 0 =>
    case 1 =>
    case 2 =>
    case 3 =>
    case 4 =>
    case 5 =>
    case 6 =>
    case 7 =>
    case 8 =>
    case 9 =>
    case _ =>
  }

  lemma PosOfFieldAtFrom11(i: nat)
    requires 11 <= i < 21
    ensures Pos(FieldAt(i)) == i
  {
    match i
    case 11 =>
    case 12 =>
    case 13 =>
    case 14 =>
    case 15 =>
    case 16 =>
    case 17 =>
    case 18 =>
    case 19 =>
    case _ =>
  }

  lemma PosOfFieldAtFrom21(i: nat)
    requires 21 <= i < 32
    ensures Pos(FieldAt(i)) == i
  {
    match i
    case 21 =>
    case 22 =>
    case 23 =>
    case 24 =>
    case 25 =>
    case 26 =>
    case 27 =>
    case 28 =>
    case 29 =>
    case 30 =>
    case _ =>
  }

  lemma PosOfFieldAtFrom32(i: nat)
    requires 32 <= i < 42
    ensures Pos(FieldAt(i)) == i
  {
    match i
    case 32 =>
    case 33 =>
    case 34 =>
    case 35 =>
    case 36 =>
    case 37 =>
    case 38 =>
    case 39 =>
    case 40 =>
    case _ =>
  }

  /** How a field's default is computed. */
  datatype Rule =
    | SumOverPlayers
    | Ratio(made: Stat, attempted: Stat)
    | Pair(first: Stat, second: Stat)

  /** The default factory of each field. Every field a factory reads is
      declared above it. */
  function RuleOf(s: Stat): (r: Rule)
    ensures r.Ratio? ==> Pos(r.made) < Pos(s) && Pos(r.attempted) < Pos(s)
    ensures r.Pair? ==> Pos(r.first) < Pos(s) && Pos(r.second) < Pos(s)
  {
    match s
    case FieldGoalsPercentage => Ratio(FieldGoals, FieldGoalsAttempted)
    case ThreePointFieldGoalsPercentage => Ratio(ThreePointFieldGoals, ThreePointFieldGoalsAttempted)
    case FreeThrowsPercentage => Ratio(FreeThrows, FreeThrowsAttempted)
    case TotalRebounds => Pair(OffensiveRebounds, DefensiveRebounds)
    case _ => SumOverPlayers
  }

  /** Every field a factory reads is itself a plain player sum, so no
      computed field reads another computed field. */
  lemma FactoriesReadSums(s: Stat)
    ensures RuleOf(s).Ratio? ==>
      RuleOf(RuleOf(s).made).SumOverPlayers? && RuleOf(RuleOf(s).attempted).SumOverPlayers?
    ensures RuleOf(s).Pair? ==>
      RuleOf(RuleOf(s).first).SumOverPlayers? && RuleOf(RuleOf(s).second).SumOverPlayers?
  {
  }

  /** `data.get(field)`: `None` for a field not validated yet. */
  function Get(data: StatRow, s: Stat): Option<real> {
    if s in data then data[s] else None
  }

  /** The default factory of `s`, run on the players and the data
      validated so far. */
  function DefaultFor(s: Stat, players: seq<Player>, data: StatRow): Option<real> {
    match RuleOf(s)
    case SumOverPlayers => PlayerSum(players, s)
    case Ratio(m, a) => Percentage(Get(data, m), Get(data, a))
    case Pair(a, b) => Added(Get(data, a), Get(data, b))
  }

  /** Validation of the derived fields from position `i` onwards: a field
      given at construction keeps its value, an omitted one gets its
      default. */
  function ValidateFrom(i: nat, players: seq<Player>, given: StatRow, data: StatRow): StatRow
    requires i <= FieldCount
    decreases FieldCount - i
  {
    if i == FieldCount then data
    else ValidateFrom(i + 1, players, given, Validate(i, players, given, data))
  }

  /** Validation of the field at position `i`: kept as given, or set by
      its default factory from the data validated so far. */
  function Validate(i: nat, players: seq<Player>, given: StatRow, data: StatRow): StatRow
    requires i < FieldCount
  {
    var s := FieldAt(i);
    data[s := if s in given then given[s] else DefaultFor(s, players, data)]
  }

  /** The derived statistic fields of a `TeamModel` built from `players`
      with the statistic fields `given` passed explicitly. */
  function DeriveStats(players: seq<Player>, given: StatRow): (row: StatRow)
    ensures forall s :: s in row && row[s] == Resolved(s, players, given)
  {
    var empty: StatRow := map[];
    ValidateAll(players, given);
    ValidateFrom(0, players, given, empty)
  }

  /** What each field should hold, stated without reference to the
      validation order: the given value, or the factory's formula applied
      to the players and to what the fields it reads should hold. */
  ghost function Resolved(s: Stat, players: seq<Player>, given: StatRow): Option<real>
    decreases Pos(s)
  {
    if s in given then given[s]
    else match RuleOf(s)
      case SumOverPlayers => PlayerSum(players, s)
      case Ratio(m, a) => Percentage(Resolved(m, players, given), Resolved(a, players, given))
      case Pair(a, b) => Added(Resolved(a, players, given), Resolved(b, players, given))
  }

  /** Once the fields a factory reads hold their intended values, the
      factory computes the intended value. */
  lemma DefaultIsResolved(s: Stat, players: seq<Player>, given: StatRow, data: StatRow)
    requires s !in given
    requires RuleOf(s).Ratio? ==>
               && Get(data, RuleOf(s).made) == Resolved(RuleOf(s).made, players, given)
               && Get(data, RuleOf(s).attempted) == Resolved(RuleOf(s).attempted, players, given)
    requires RuleOf(s).Pair? ==>
               && Get(data, RuleOf(s).first) == Resolved(RuleOf(s).first, players, given)
               && Get(data, RuleOf(s).second) == Resolved(RuleOf(s).second, players, given)
    ensures DefaultFor(s, players, data) == Resolved(s, players, given)
  {
  }

  /** The row holding `f` of the first `i` fields in declaration order. */
  ghost function Prefix(i: nat, f: Stat -> Option<real>): StatRow
    requires i <= FieldCount
  {
    if i == 0 then map[] else Prefix(i - 1, f)[FieldAt(i - 1) := f(FieldAt(i - 1))]
  }

  lemma {:induction false} PrefixAt(i: nat, f: Stat -> Option<real>, g: Stat)
    requires i <= FieldCount && Pos(g) < i
    ensures g in Prefix(i, f) && Prefix(i, f)[g] == f(g)
  {
    if Pos(g) < i - 1 {
      PrefixAt(i - 1, f, g);
    }
  }

  ghost function Intended(players: seq<Player>, given: StatRow): Stat -> Option<real> {
    s => Resolved(s, players, given)
  }

  /** Validation from position `i` on, started from the intended values
      of the fields before `i`, produces the intended values of all
      fields. */
  lemma {:induction false} ValidateFromPrefix(i: nat, players: seq<Player>, given: StatRow)
    requires i <= FieldCount
    ensures ValidateFrom(i, players, given, Prefix(i, Intended(players, given))) ==
            Prefix(FieldCount, Intended(players, given))
    decreases FieldCount - i
  {
    if i < FieldCount {
      ValidateIsIntended(i, players, given);
      ValidateFromPrefix(i + 1, players, given);
    }
  }

  /** Validating field `i` on top of the intended values of the fields
      before it adds that field's intended value. */
  lemma ValidateIsIntended(i: nat, players: seq<Player>, given: StatRow)
    requires i < FieldCount
    ensures Validate(i, players, given, Prefix(i, Intended(players, given))) ==
            Prefix(i + 1, Intended(players, given))
  {
    var f := Intended(players, given);
    var s := FieldAt(i);
    var data := Prefix(i, f);
    PosOfFieldAt(i);
    if s !in given {
      var rule := RuleOf(s);
      if rule.Ratio? {
        PrefixAt(i, f, rule.made);
        PrefixAt(i, f, rule.attempted);
      } else if rule.Pair? {
        PrefixAt(i, f, rule.first);
        PrefixAt(i, f, rule.second);
      }
      DefaultIsResolved(s, players, given, data);
    }
  }

  /** Validation of every field yields every field's intended value. */
  lemma ValidateAll(players: seq<Player>, given: StatRow)
    ensures forall g :: g in ValidateFrom(0, players, given, map[])
    ensures forall g :: ValidateFrom(0, players, given, map[])[g] == Resolved(g, players, given)
  {
    var f := Intended(players, given);
    ValidateFromPrefix(0, players, given);
    forall g
      ensures g in Prefix(FieldCount, f) && Prefix(FieldCount, f)[g] == Resolved(g, players, given)
    {
      PrefixAt(FieldCount, f, g);
    }
  }

  /** With nothing given, a summed field is the player sum. */
  lemma SummedWhenOmitted(players: seq<Player>, s: Stat)
    requires RuleOf(s).SumOverPlayers?
    ensures DeriveStats(players, map[])[s] == PlayerSum(players, s)
  {
  }

  /** With nothing given, a percentage is computed from the two player
      sums it reads. */
  lemma RatioWhenOmitted(players: seq<Player>, s: Stat)
    requires RuleOf(s).Ratio?
    ensures DeriveStats(players, map[])[s] ==
            Percentage(PlayerSum(players, RuleOf(s).made), PlayerSum(players, RuleOf(s).attempted))
  {
    FactoriesReadSums(s);
  }

  /** With nothing given, total rebounds add the two player sums. */
  lemma PairWhenOmitted(players: seq<Player>, s: Stat)
    requires RuleOf(s).Pair?
    ensures DeriveStats(players, map[])[s] ==
            Added(PlayerSum(players, RuleOf(s).first), PlayerSum(players, RuleOf(s).second))
  {
    FactoriesReadSums(s);
  }

  /** A field passed at construction is kept as given; the defaults apply
      only to omitted fields. */
  lemma GivenFieldsWin(players: seq<Player>, given: StatRow, s: Stat)
    requires s in given
    ensures DeriveStats(players, given)[s] == given[s]
  {
  }

  /** A percentage reads the field as validated, so an explicitly given
      `None` numerator makes it `None` whatever the players hold. */
  lemma PercentageReadsGivenField(players: seq<Player>)
    ensures DeriveStats(players, map[FieldGoals := None])[FieldGoalsPercentage] == None
  {
  }

  /** `TeamModel(...)` with the statistic fields in `given` passed
      explicitly and the rest left to their factories. */
  function NewTeam(identifier: string, name: string, location: Option<string>,
                   players: seq<Player>, odds: seq<Odds>, points: Option<real>,
                   ladderRank: Option<int>, given: StatRow): (t: Team)
    ensures t.identifier == identifier && t.name == name && t.location == location
    ensures t.players == players && t.odds == odds && t.points == points
    ensures t.ladderRank == ladderRank
    ensures forall s :: s in t.stats && t.stats[s] == Resolved(s, players, given)
  {
    Team(identifier, name, location, players, odds, points, ladderRank, DeriveStats(players, given))
  }
}
