/** One team's record built from an Odds Portal event page
    (oddsportal/oddsportal_team_model.py): the price table is picked by
    bet and scope id, falling back to the smallest key; the team's
    outcome id is looked up by position, falling back to its decimal
    text; the team's prices are every listed bookmaker's price history,
    bookmaker by bookmaker. A JSON object is an association list in
    insertion order. */
module OddsPortal {
  import opened Wrappers
  import opened Models
  import Strings
  import Fold
  import TeamStats

  /** A JSON object with string keys, in insertion order. */
  type Dict<V> = seq<(string, V)>

  /** The keys of `d`, in order. */
  function Keys<V>(d: Dict<V>): (ks: seq<string>)
    ensures |ks| == |d| && forall i :: 0 <= i < |d| ==> ks[i] == d[i].0
  {
    seq(|d|, i requires 0 <= i < |d| => d[i].0)
  }

  /** `d.get(k)`: the value stored under `k`. */
  function Get<V>(d: Dict<V>, k: string): (r: Option<V>)
    ensures r.None? <==> k !in Keys(d)
    ensures r.Some? ==> (k, r.value) in d
  {
    if |d| == 0 then None
    else if d[0].0 == k then Some(d[0].1)
    else
      assert Keys(d) == [d[0].0] + Keys(d[1..]);
      var r := Get(d[1..], k);
      assert forall x :: x in d[1..] ==> x in d;
      r
  }

  /** A key of `outcomeId`: JSON gives text keys, but
      `_create_oddsportal_team_model` first tries the team index as a
      number. */
  datatype PyKey = IntKey(n: int) | StrKey(s: string)

  /** The `outcomeId` entry: either a JSON list indexed by position or an
      object. */
  datatype OutcomeIds =
    | ListIds(ids: seq<string>)
    | DictIds(entries: seq<(PyKey, string)>)

  /** One history entry `[odds, _, timestamp]`; the middle field is
      never read. */
  datatype Entry = Entry(odds: real, unused: real, timestamp: int)

  /** One price table of `back`: the outcome ids and, per outcome id,
      each bookmaker's price history. */
  datatype OddsData = OddsData(outcomeId: OutcomeIds, history: Dict<Dict<seq<Entry>>>)

  /** `create_oddsportal_odds_model(odds, fromtimestamp(ts), bookie_name,
      bookie_id)`: not part of this model. */
  type OddsFactory = (real, int, string, string) -> Odds

  /** The preferred table key `f"E-{bet}-{scope}-0-0-0"`. */
  function PreferredKey(bet: string, scope: string): (k: string)
    ensures |k| == |bet| + |scope| + 9
    ensures k[..2] == "E-" && k[|k| - 6..] == "-0-0-0"
  {
    "E-" + bet + "-" + scope + "-0-0-0"
  }

  /** The price table: the preferred key's when it is present; without
      it, the table under the smallest key of `back` in string order
      (`sorted(list(back.keys()))[0]`), and an empty `back` raises
      `IndexError`. */
  function SelectOddsData(back: Dict<OddsData>, bet: string, scope: string): (r: Result<OddsData, Error>)
    ensures r.Failure? <==> PreferredKey(bet, scope) !in Keys(back) && |back| == 0
    ensures r.Failure? ==> r.error == IndexError
    ensures PreferredKey(bet, scope) in Keys(back) ==> r == Success(Get(back, PreferredKey(bet, scope)).value)
    ensures PreferredKey(bet, scope) !in Keys(back) && |back| > 0 ==>
              exists k :: k in Keys(back) && (forall j :: j in Keys(back) ==> Strings.LexLe(k, j)) &&
                          r == Success(Get(back, k).value)
  {
    match Get(back, PreferredKey(bet, scope))
    case Some(d) => Success(d)
    case None =>
      if |back| == 0 then Failure(IndexError)
      else
        var k := Strings.Smallest(Keys(back));
        assert k in Keys(back) && forall j :: j in Keys(back) ==> Strings.LexLe(k, j);
        Success(Get(back, k).value)
  }

  /** Looks `k` up among the outcome-id entries. */
  function Lookup(entries: seq<(PyKey, string)>, k: PyKey): (r: Option<string>)
    ensures r.Some? <==> exists i :: 0 <= i < |entries| && entries[i].0 == k
    ensures r.Some? ==> exists i :: 0 <= i < |entries| && entries[i] == (k, r.value)
  {
    if |entries| == 0 then None
    else if entries[0].0 == k then Some(entries[0].1)
    else
      var r := Lookup(entries[1..], k);
      assert forall i :: 0 <= i < |entries[1..]| ==> entries[1..][i] == entries[i + 1];
      assert r.Some? <==> exists i :: 1 <= i < |entries| && entries[i].0 == k by {
        if r.Some? {
          var i :| 0 <= i < |entries[1..]| && entries[1..][i].0 == k;
          assert entries[i + 1].0 == k;
        }
        if exists i :: 1 <= i < |entries| && entries[i].0 == k {
          var i :| 1 <= i < |entries| && entries[i].0 == k;
          assert entries[1..][i - 1].0 == k;
        }
      }
      r
  }

  /** `odds_data["outcomeId"][team_idx]`, retried with `str(team_idx)` on
      `KeyError`. A list is indexed by position, counting from the end
      for a negative index, and a position outside it raises
      `IndexError`, which is not retried. */
  function OutcomeId(ids: OutcomeIds, teamIdx: int): (r: Result<string, Error>)
    ensures ids.ListIds? ==> (r.Success? <==> -|ids.ids| <= teamIdx < |ids.ids|)
    ensures ids.ListIds? && 0 <= teamIdx < |ids.ids| ==> r == Success(ids.ids[teamIdx])
    ensures ids.ListIds? && r.Failure? ==> r.error == IndexError
    ensures ids.DictIds? && r.Failure? ==> r.error.KeyError?
  {
    match ids
    case ListIds(xs) =>
      if 0 <= teamIdx < |xs| then Success(xs[teamIdx])
      else if -|xs| <= teamIdx < 0 then Success(xs[|xs| + teamIdx])
      else Failure(IndexError)
    case DictIds(entries) =>
      match Lookup(entries, IntKey(teamIdx))
      case Some(id) => Success(id)
      case None =>
        match Lookup(entries, StrKey(Strings.IntToString(teamIdx)))
        case Some(id) => Success(id)
        case None => Failure(KeyError(Strings.IntToString(teamIdx)))
  }

  /** An object's numeric key is tried first; its text key only when the
      numeric one is missing; with neither the lookup raises `KeyError`. */
  lemma OutcomeIdKeyOrder(entries: seq<(PyKey, string)>, teamIdx: int)
    ensures Lookup(entries, IntKey(teamIdx)).Some? ==>
              OutcomeId(DictIds(entries), teamIdx) == Success(Lookup(entries, IntKey(teamIdx)).value)
    ensures Lookup(entries, IntKey(teamIdx)).None? ==>
              OutcomeId(DictIds(entries), teamIdx) ==
                (match Lookup(entries, StrKey(Strings.IntToString(teamIdx)))
                 case Some(id) => Success(id)
                 case None => Failure(KeyError(Strings.IntToString(teamIdx))))
  {
  }

  /** The prices of one bookmaker: each history entry in order. */
  function EntryOdds(entries: seq<Entry>, bookieId: string, bookieName: string, make: OddsFactory)
    : (os: seq<Odds>)
    ensures |os| == |entries|
    ensures forall i :: 0 <= i < |entries| ==>
              os[i] == make(entries[i].odds, entries[i].timestamp, bookieName, bookieId)
  {
    seq(|entries|, i requires 0 <= i < |entries| =>
          make(entries[i].odds, entries[i].timestamp, bookieName, bookieId))
  }

  /** `history.get(bookie_id, [])`. */
  function HistoryOf(history: Dict<seq<Entry>>, bookieId: string): seq<Entry> {
    Get(history, bookieId).GetOr([])
  }

  /** Each listed bookmaker's prices, in `bookie_names` order. */
  function OddsPerBookie(history: Dict<seq<Entry>>, bookies: Dict<string>, make: OddsFactory): seq<seq<Odds>> {
    seq(|bookies|, i requires 0 <= i < |bookies| => BookieOdds(history, bookies[i], make))
  }

  /** The prices of one listed bookmaker `(bookie_id, bookie_name)`. */
  function BookieOdds(history: Dict<seq<Entry>>, bookie: (string, string), make: OddsFactory): (os: seq<Odds>)
    ensures |os| == |HistoryOf(history, bookie.0)|
  {
    EntryOdds(HistoryOf(history, bookie.0), bookie.0, bookie.1, make)
  }

  /** The team's prices: the nested loop over `bookie_names.items()` and
      the bookmaker's history, appending as it goes. There are exactly as
      many prices as the listed bookmakers have history entries
      altogether. */
  function CollectOdds(history: Dict<seq<Entry>>, bookies: Dict<string>, make: OddsFactory): (os: seq<Odds>)
    ensures |os| == Sum(HistoryLengths(history, bookies))
  {
    if |bookies| == 0 then []
    else
      var init := bookies[..|bookies| - 1];
      var ls := HistoryLengths(history, bookies);
      assert ls[..|ls| - 1] == HistoryLengths(history, init);
      CollectOdds(history, init, make) + BookieOdds(history, bookies[|bookies| - 1], make)
  }

  /** The appending loop builds the bookmakers' price lists one after the
      other: it is their concatenation. */
  lemma {:induction false} CollectIsFlatten(history: Dict<seq<Entry>>, bookies: Dict<string>, make: OddsFactory)
    ensures CollectOdds(history, bookies, make) == Fold.Flatten(OddsPerBookie(history, bookies, make))
  {
    if |bookies| > 0 {
      var init := bookies[..|bookies| - 1];
      CollectIsFlatten(history, init, make);
      var oss := OddsPerBookie(history, bookies, make);
      assert oss[..|oss| - 1] == OddsPerBookie(history, init, make);
    }
  }

  /** The history lengths of the listed bookmakers, in order. */
  function HistoryLengths(history: Dict<seq<Entry>>, bookies: Dict<string>): (ls: seq<nat>)
    ensures |ls| == |bookies|
    ensures forall i :: 0 <= i < |bookies| ==> ls[i] == |HistoryOf(history, bookies[i].0)|
  {
    seq(|bookies|, i requires 0 <= i < |bookies| => |HistoryOf(history, bookies[i].0)|)
  }

  function Sum(xs: seq<nat>): nat {
    if |xs| == 0 then 0 else Sum(xs[..|xs| - 1]) + xs[|xs| - 1]
  }

  lemma PerBookieAppend(history: Dict<seq<Entry>>, a: Dict<string>, b: Dict<string>, make: OddsFactory)
    ensures OddsPerBookie(history, a + b, make) == OddsPerBookie(history, a, make) + OddsPerBookie(history, b, make)
  {
    var x, y := OddsPerBookie(history, a, make), OddsPerBookie(history, b, make);
    var z := OddsPerBookie(history, a + b, make);
    forall i | 0 <= i < |a + b|
      ensures z[i] == (x + y)[i]
    {
      if i < |a| {
        assert (a + b)[i] == a[i];
      } else {
        assert (a + b)[i] == b[i - |a|];
      }
    }
  }

  /** Two listings joined give the two price lists joined: bookmakers
      earlier in `bookie_names` have all their prices first. */
  lemma CollectAppend(history: Dict<seq<Entry>>, a: Dict<string>, b: Dict<string>, make: OddsFactory)
    ensures CollectOdds(history, a + b, make) == CollectOdds(history, a, make) + CollectOdds(history, b, make)
  {
    CollectIsFlatten(history, a + b, make);
    CollectIsFlatten(history, a, make);
    CollectIsFlatten(history, b, make);
    var x, y := OddsPerBookie(history, a, make), OddsPerBookie(history, b, make);
    PerBookieAppend(history, a, b, make);
    Fold.FlattenAppend(x, y);
  }

  /** A bookmaker with no history for this outcome contributes no price:
      listing it or not makes no difference. */
  lemma AbsentBookieContributesNothing(history: Dict<seq<Entry>>, a: Dict<string>, bookie: (string, string),
                                       b: Dict<string>, make: OddsFactory)
    requires bookie.0 !in Keys(history)
    ensures CollectOdds(history, a + [bookie] + b, make) == CollectOdds(history, a + b, make)
  {
    CollectAppend(history, a + [bookie], b, make);
    CollectAppend(history, a, [bookie], make);
    CollectAppend(history, a, b, make);
    SingleAbsentBookie(history, bookie, make);
  }

  lemma SingleAbsentBookie(history: Dict<seq<Entry>>, bookie: (string, string), make: OddsFactory)
    requires bookie.0 !in Keys(history)
    ensures CollectOdds(history, [bookie], make) == []
  {
    assert [bookie][..0] == [];
  }

  /** `_create_oddsportal_team_model`: the team named `team_name`, with
      no players, no ladder rank and no location, carrying the collected
      prices; every failed lookup raises. `field_goals` is given as
      `None`, and the other statistics are derived from the (absent)
      players. The news and social feeds are not part of this model. */
  function CreateTeam(teamName: string, points: Option<real>, bet: string, scope: string,
                      bookies: Dict<string>, teamIdx: int, back: Dict<OddsData>, make: OddsFactory)
    : (r: Result<Team, Error>)
    ensures r.Success? ==> r.value.identifier == teamName && r.value.name == teamName
    ensures r.Success? ==> r.value.players == [] && r.value.ladderRank.None? && r.value.location.None?
    ensures r.Success? ==> r.value.points == points
    ensures r.Success? ==>
              forall s :: s in r.value.stats && r.value.stats[s] == TeamStats.Resolved(s, [], map[FieldGoals := None])
  {
    var data :- SelectOddsData(back, bet, scope);
    var outcome :- OutcomeId(data.outcomeId, teamIdx);
    var history :- (match Get(data.history, outcome)
                    case Some(h) => Success(h)
                    case None => Failure(KeyError(outcome)));
    Success(TeamStats.NewTeam(teamName, teamName, None, [], CollectOdds(history, bookies, make), points, None,
                              map[FieldGoals := None]))
  }

  /** When every lookup succeeds the team's prices are the outcome's
      histories of the listed bookmakers, concatenated in listing order;
      a missing outcome history raises `KeyError`. */
  lemma CreateTeamOdds(teamName: string, points: Option<real>, bet: string, scope: string,
                       bookies: Dict<string>, teamIdx: int, back: Dict<OddsData>, make: OddsFactory)
    requires SelectOddsData(back, bet, scope).Success?
    requires OutcomeId(SelectOddsData(back, bet, scope).value.outcomeId, teamIdx).Success?
    ensures var data := SelectOddsData(back, bet, scope).value;
            var outcome := OutcomeId(data.outcomeId, teamIdx).value;
            var r := CreateTeam(teamName, points, bet, scope, bookies, teamIdx, back, make);
            && (r.Failure? <==> outcome !in Keys(data.history))
            && (r.Failure? ==> r.error == KeyError(outcome))
            && (r.Success? ==> r.value.odds == Fold.Flatten(OddsPerBookie(Get(data.history, outcome).value, bookies, make)))
  {
    var data := SelectOddsData(back, bet, scope).value;
    var outcome := OutcomeId(data.outcomeId, teamIdx).value;
    if outcome in Keys(data.history) {
      CollectIsFlatten(Get(data.history, outcome).value, bookies, make);
    }
  }
}
