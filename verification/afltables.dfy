/** One team's record from an AFL Tables team page
    (afl/afltables/afl_afltables_team_model.py): the identifier is the
    page's file name without its extension, the name is the page's
    heading, and the last ladder rank is looked up under the team's
    short codes, first code first. */
module AflTables {
  import opened Wrappers
  import opened Models
  import Strings
  import TeamStats

  /** `_TEAM_NAME_MAP`: each team's AFL Tables short codes in the order
      they are tried. South Melbourne's `SM` is also Sydney's first code. */
  function ShortNames(name: string): (r: Option<seq<string>>)
    ensures r.Some? ==> |r.value| > 0
  {
    match name
    case "Melbourne" => Some(["ME"])
    case "Geelong" => Some(["GE"])
    case "Fitzroy" => Some(["FI"])
    case "Collingwood" => Some(["CW"])
    case "Essendon" => Some(["ES"])
    case "South Melbourne" => Some(["SM"])
    case "St Kilda" => Some(["SK"])
    case "Carlton" => Some(["CA"])
    case "Sydney" => Some(["SM", "SY"])
    case "University" => Some(["UN"])
    case "Richmond" => Some(["RI"])
    case "North Melbourne" => Some(["NM"])
    case "Western Bulldogs" => Some(["WB", "FO"])
    case "Hawthorn" => Some(["HW"])
    case "Brisbane Bears" => Some(["BB"])
    case "West Coast" => Some(["WC"])
    case "Adelaide" => Some(["AD"])
    case "Fremantle" => Some(["FR"])
    case "Brisbane Lions" => Some(["BL"])
    case "Port Adelaide" => Some(["PA"])
    case "Gold Coast" => Some(["GC"])
    case "Greater Western Sydney" => Some(["GW"])
    case _ => None
  }

  /** The identifier: `os.path.splitext` of the last `/`-separated
      segment of the URL's path. */
  function TeamIdentifier(path: string): (id: string)
    ensures '/' !in id
    ensures id + Strings.SplitExt(Strings.LastSegment(path)).1 == Strings.LastSegment(path)
  {
    Strings.SplitExt(Strings.LastSegment(path)).0
  }

  /** The identifier is the file name of the page before its extension:
      whatever directories precede it, `<dir>/<stem>.<ext>` gives
      `<stem>` when the stem has a character other than a dot and the
      extension has no dot. */
  lemma IdentifierIsStem(dir: string, stem: string, ext: string)
    requires '/' !in stem && '/' !in ext && '.' !in ext
    requires exists k :: 0 <= k < |stem| && stem[k] != '.'
    ensures TeamIdentifier(dir + "/" + stem + "." + ext) == stem
  {
    assert dir + "/" + stem + "." + ext == dir + "/" + (stem + "." + ext);
    LastSegmentAfterSlash(dir, stem + "." + ext);
    StemBeforeLastDot(stem, ext);
  }

  /** The last segment of `<dir>/<file>` is `file` when it has no slash. */
  lemma LastSegmentAfterSlash(dir: string, file: string)
    requires '/' !in file
    ensures Strings.LastSegment(dir + "/" + file) == file
  {
    var path := dir + "/" + file;
    assert path[|dir|] == '/';
    assert forall k :: |dir| < k < |path| ==> path[k] == file[k - |dir| - 1];
    var i := Strings.LastIndexOf(path, '/').value;
    assert i == |dir|;
    assert path[i + 1..] == file;
  }

  /** `splitext("<stem>.<ext>")` splits at that dot when the extension
      has no dot and the stem is not all dots. */
  lemma StemBeforeLastDot(stem: string, ext: string)
    requires '.' !in ext
    requires exists k :: 0 <= k < |stem| && stem[k] != '.'
    ensures Strings.SplitExt(stem + "." + ext).0 == stem
  {
    var name := stem + "." + ext;
    assert name[|stem|] == '.';
    assert forall k :: |stem| < k < |name| ==> name[k] == ext[k - |stem| - 1];
    var d := Strings.LastIndexOf(name, '.').value;
    assert d == |stem|;
    var k :| 0 <= k < |stem| && stem[k] != '.';
    assert name[k] == stem[k];
    assert name[..d] == stem;
  }

  /** The rank under the first of `codes`, in order, that the ranks map
      has; `None` when it has none of them. */
  function FirstRanked(codes: seq<string>, ranks: map<string, int>): (r: Option<int>)
    ensures r.None? <==> forall i :: 0 <= i < |codes| ==> codes[i] !in ranks
  {
    if |codes| == 0 then None
    else if codes[0] in ranks then Some(ranks[codes[0]])
    else
      var r := FirstRanked(codes[1..], ranks);
      assert forall i :: 1 <= i < |codes| ==> codes[i] == codes[1..][i - 1];
      r
  }

  /** The rank found is that of the earliest code the map has. */
  lemma {:induction false} FirstRankedIsEarliest(codes: seq<string>, ranks: map<string, int>, i: nat)
    requires i < |codes| && codes[i] in ranks
    requires forall j :: 0 <= j < i ==> codes[j] !in ranks
    ensures FirstRanked(codes, ranks) == Some(ranks[codes[i]])
  {
    if i > 0 {
      assert codes[1..][i - 1] == codes[i];
      FirstRankedIsEarliest(codes[1..], ranks, i - 1);
    }
  }

  /** `last_ladder_rank`: `None` without ranks; otherwise the team's
      codes are looked up in the short-name table (a name missing from it
      raises `KeyError`) and the first ranked code gives the rank. */
  function LadderRank(name: string, ranks: Option<map<string, int>>): (r: Result<Option<int>, Error>)
    ensures ranks.None? || |ranks.value| == 0 ==> r == Success(None)
    ensures r.Failure? <==> ranks.Some? && |ranks.value| > 0 && ShortNames(name).None?
    ensures r.Failure? ==> r.error == KeyError(name)
    ensures r.Success? && r.value.Some? ==>
              exists code :: code in ShortNames(name).value && code in ranks.value && r.value.value == ranks.value[code]
    ensures ranks.Some? && |ranks.value| > 0 && ShortNames(name).Some? ==>
              r == Success(FirstRanked(ShortNames(name).value, ranks.value))
  {
    if ranks.None? || |ranks.value| == 0 then Success(None)
    else
      match ShortNames(name)
      case None => Failure(KeyError(name))
      case Some(codes) =>
        var r := FirstRanked(codes, ranks.value);
        assert r.Some? ==> exists i :: 0 <= i < |codes| && codes[i] in ranks.value && r.value == ranks.value[codes[i]] by {
          if r.Some? {
            FirstRankedWitness(codes, ranks.value);
          }
        }
        Success(r)
  }

  lemma {:induction false} FirstRankedWitness(codes: seq<string>, ranks: map<string, int>)
    requires FirstRanked(codes, ranks).Some?
    ensures exists i :: 0 <= i < |codes| && codes[i] in ranks && FirstRanked(codes, ranks).value == ranks[codes[i]]
  {
    if codes[0] !in ranks {
      FirstRankedWitness(codes[1..], ranks);
      var i :| 0 <= i < |codes[1..]| && codes[1..][i] in ranks && FirstRanked(codes[1..], ranks).value == ranks[codes[1..][i]];
      assert codes[i + 1] == codes[1..][i];
    }
  }

  /** The rank is that of the team's earliest short code, in the
      table's order, that the ranks map has: codes before it are unranked
      and codes after it are never consulted. */
  lemma LadderRankIsEarliestCode(name: string, ranks: map<string, int>, i: nat)
    requires ShortNames(name).Some? && |ranks| > 0
    requires i < |ShortNames(name).value| && ShortNames(name).value[i] in ranks
    requires forall j :: 0 <= j < i ==> ShortNames(name).value[j] !in ranks
    ensures LadderRank(name, Some(ranks)) == Success(Some(ranks[ShortNames(name).value[i]]))
  {
    FirstRankedIsEarliest(ShortNames(name).value, ranks, i);
  }

  /** With ranks given, a known team gets no rank exactly when none of
      its short codes is ranked. */
  lemma NoRankWithoutRankedCode(name: string, ranks: map<string, int>)
    requires ShortNames(name).Some? && |ranks| > 0
    ensures LadderRank(name, Some(ranks)) == Success(None) <==>
            forall j :: 0 <= j < |ShortNames(name).value| ==> ShortNames(name).value[j] !in ranks
  {
  }

  /** Sydney tries `SM` before `SY`: whenever the ranks hold `SM`, Sydney
      is given South Melbourne's rank, even when `SY` is ranked too. */
  lemma SydneyTakesSouthMelbourneRank(ranks: map<string, int>)
    requires "SM" in ranks
    ensures LadderRank("Sydney", Some(ranks)) == Success(Some(ranks["SM"]))
    ensures LadderRank("South Melbourne", Some(ranks)) == Success(Some(ranks["SM"]))
  {
    FirstRankedIsEarliest(["SM", "SY"], ranks, 0);
    FirstRankedIsEarliest(["SM"], ranks, 0);
  }

  /** The Western Bulldogs fall back to Footscray's `FO` only when `WB`
      is unranked. */
  lemma BulldogsFallBackToFootscray(ranks: map<string, int>)
    requires "WB" !in ranks && "FO" in ranks
    ensures LadderRank("Western Bulldogs", Some(ranks)) == Success(Some(ranks["FO"]))
  {
    FirstRankedIsEarliest(["WB", "FO"], ranks, 1);
  }

  /** `create_afl_afltables_player_model(player_url, jersey, kicks)`: not
      part of this model. */
  type PlayerFactory = (string, string, Option<int>) -> Player

  /** `create_afl_afltables_team_model`: a page without an `h1` raises
      `ValueError`; otherwise the team has the page's identifier and
      heading, one player per player row, no prices, the given points and
      the looked-up ladder rank. The page fetch and the HTML parse are
      not part of this model: the URL's path and the heading text are
      given. The statistics are derived from the players, none being
      given. */
  function CreateTeam(path: string, h1: Option<string>, players: seq<(string, string, Option<int>)>,
                      points: real, ranks: Option<map<string, int>>, make: PlayerFactory)
    : (r: Result<Team, Error>)
    ensures h1.None? ==> r.Failure? && r.error.ValueError?
    ensures h1.Some? ==> (r.Success? <==> LadderRank(h1.value, ranks).Success?)
    ensures r.Success? ==>
              && r.value.identifier == TeamIdentifier(path) && r.value.name == h1.value
              && r.value.odds == [] && r.value.points == Some(points)
              && r.value.ladderRank == LadderRank(h1.value, ranks).value
              && r.value.location.None?
              && |r.value.players| == |players|
              && forall i :: 0 <= i < |players| ==>
                   r.value.players[i] == make(players[i].0, players[i].1, players[i].2)
    ensures r.Success? ==>
              forall s :: s in r.value.stats && r.value.stats[s] == TeamStats.Resolved(s, r.value.players, map[])
  {
    if h1.None? then Failure(ValueError("h1 is null."))
    else
      var name := h1.value;
      match LadderRank(name, ranks)
      case Failure(e) => Failure(e)
      case Success(rank) =>
        var made := seq(|players|, i requires 0 <= i < |players| => make(players[i].0, players[i].1, players[i].2));
        var team := TeamStats.NewTeam(TeamIdentifier(path), name, None, made, [], Some(points), rank, map[]);
        Success(team)
  }
}
