/** The season-start feature (strategy/features/min_feature.py): every row
    of the feature table gets the datetime of the first row, in table
    order, of its season, a season being a year and a season type. */
module MinFeature {
  import opened Wrappers
  import opened Models
  import Strings
  import Grouping

  /** A feature-table row, reduced to the cells the feature reads (season
      year, season type, game datetime) and the one it writes. */
  datatype Row = Row(year: int, seasonType: string, dt: Timestamp, seasonStart: Option<Timestamp>)

  /** A feature table: its column names and its rows. */
  datatype Frame = Frame(columns: seq<string>, rows: seq<Row>)

  /** The name of the written column, `season` and `startdt` joined by the
      column separator (which is not part of this model). */
  function SeasonStartColumn(sep: string): (name: string)
    ensures name == "season" + sep + "startdt"
  {
    Strings.Join2(sep, "season", "startdt");
    Strings.Join(sep, ["season", "startdt"])
  }

  /** Assigning a column: a new name is appended, an existing one is
      overwritten in place. */
  function AddColumn(columns: seq<string>, name: string): (r: seq<string>)
    ensures forall x :: x in r <==> x in columns || x == name
    ensures name in columns ==> r == columns
    ensures name !in columns ==> r == columns + [name]
  {
    if name in columns then columns else columns + [name]
  }

  /** The season key: the year's decimal text and the season type joined
      by `-`. */
  function SeasonKey(r: Row): (k: string)
    ensures k == Strings.IntToString(r.year) + "-" + r.seasonType
  {
    Strings.Join2("-", Strings.IntToString(r.year), r.seasonType);
    Strings.Join("-", [Strings.IntToString(r.year), r.seasonType])
  }

  /** The keys of the rows, in table order. */
  function Keys(rows: seq<Row>): (ks: seq<string>)
    ensures |ks| == |rows| && forall i :: 0 <= i < |rows| ==> ks[i] == SeasonKey(rows[i])
  {
    Grouping.KeysOf(rows, SeasonKey)
  }

  /** The intended value of row `i`'s season start: the datetime of the
      first row with the same season key. */
  function StartOf(rows: seq<Row>, i: nat): Timestamp
    requires i < |rows|
  {
    var ks := Keys(rows);
    assert ks[i] == SeasonKey(rows[i]);
    rows[Grouping.FirstIndex(ks, SeasonKey(rows[i]))].dt
  }

  /** Row `i` with its season start filled in; every other cell as it
      was. */
  function Stamped(rows: seq<Row>, i: nat): Row
    requires i < |rows|
  {
    rows[i].(seasonStart := Some(StartOf(rows, i)))
  }

  /** `starts` is the record the pass holds after its first `n` rows:
      exactly the keys of those rows, each with the datetime of the
      first row, in table order, that has it. */
  ghost predicate IsFirstSeen(rows: seq<Row>, n: nat, starts: map<string, Timestamp>)
    requires n <= |rows|
  {
    && (forall k :: k in starts <==> k in Keys(rows)[..n])
    && (forall k :: k in starts ==> starts[k] == rows[Grouping.FirstIndex(Keys(rows), k)].dt)
  }

  /** Appending the next row's stamped form keeps the written rows
      stamped. */
  lemma StampedSnoc(rows: seq<Row>, out: seq<Row>, written: Row)
    requires |out| < |rows| && written == Stamped(rows, |out|)
    requires forall j :: 0 <= j < |out| ==> out[j] == Stamped(rows, j)
    ensures forall j :: 0 <= j < |out| + 1 ==> (out + [written])[j] == Stamped(rows, j)
  {
    forall j | 0 <= j < |out| + 1
      ensures (out + [written])[j] == Stamped(rows, j)
    {
      if j < |out| {
        assert (out + [written])[j] == out[j];
      }
    }
  }

  /** Before any row, nothing is recorded. */
  lemma NothingSeen(rows: seq<Row>)
    ensures IsFirstSeen(rows, 0, map[])
  {
  }

  /** One call of `record_season_start_dt(row)`: records the row's
      datetime under its key if the key is new, then fills in the row's
      season start from the record. Given the first-seen record of the
      rows before it, it keeps the record first-seen and writes the row
      with its season's start. */
  method RecordRow(rows: seq<Row>, i: nat, starts: map<string, Timestamp>)
      returns (starts': map<string, Timestamp>, written: Row)
    requires i < |rows| && IsFirstSeen(rows, i, starts)
    ensures IsFirstSeen(rows, i + 1, starts')
    ensures written == Stamped(rows, i)
  {
    ghost var ks := Keys(rows);
    assert ks[..i + 1] == ks[..i] + [ks[i]];
    var row := rows[i];
    var key := SeasonKey(row);
    starts' := starts;
    if key !in starts' {
      Grouping.FirstIndexAt(ks, key, i);
      starts' := starts'[key := row.dt];
    }
    written := row.(seasonStart := Some(starts'[key]));
  }

  /** `_process_season_start_dt(df)`: one pass over the rows keeping the
      datetime recorded for each season key seen so far; an unseen key
      records the current row's datetime; every row receives its key's
      recorded datetime. */
  method ProcessSeasonStartDt(sep: string, f: Frame) returns (g: Frame)
    ensures g.columns == AddColumn(f.columns, SeasonStartColumn(sep))
    ensures |g.rows| == |f.rows|
    ensures forall i :: 0 <= i < |f.rows| ==> g.rows[i] == Stamped(f.rows, i)
  {
    var starts: map<string, Timestamp> := map[];
    var out: seq<Row> := [];
    var i := 0;
    NothingSeen(f.rows);
    while i < |f.rows|
      invariant 0 <= i <= |f.rows| && |out| == i
      invariant IsFirstSeen(f.rows, i, starts)
      invariant forall j :: 0 <= j < i ==> out[j] == Stamped(f.rows, j)
    {
      var written;
      starts, written := RecordRow(f.rows, i, starts);
      StampedSnoc(f.rows, out, written);
      out := out + [written];
      i := i + 1;
    }
    g := Frame(AddColumn(f.columns, SeasonStartColumn(sep)), out);
  }

  /** `MinFeature.process(df)`: the season-start pass, then a copy. */
  method Process(sep: string, f: Frame) returns (g: Frame)
    ensures SeasonStartColumn(sep) in g.columns
    ensures forall x :: x in g.columns <==> x in f.columns || x == SeasonStartColumn(sep)
    ensures |g.rows| == |f.rows|
    ensures forall i :: 0 <= i < |f.rows| ==> g.rows[i] == Stamped(f.rows, i)
  {
    g := ProcessSeasonStartDt(sep, f);
  }

  /** The first row of a season records its own datetime. */
  lemma FirstRowOfSeason(rows: seq<Row>, i: nat)
    requires i < |rows|
    requires forall j :: 0 <= j < i ==> SeasonKey(rows[j]) != SeasonKey(rows[i])
    ensures StartOf(rows, i) == rows[i].dt
  {
    var ks := Keys(rows);
    assert SeasonKey(rows[i]) !in ks[..i];
    Grouping.FirstIndexAt(ks, SeasonKey(rows[i]), i);
  }

  /** All rows of one season get the same start, the datetime of a row
      of that season at or before each of them. */
  lemma SameSeasonSameStart(rows: seq<Row>, i: nat, j: nat)
    requires i < |rows| && j < |rows| && SeasonKey(rows[i]) == SeasonKey(rows[j])
    ensures StartOf(rows, i) == StartOf(rows, j)
    ensures exists m :: 0 <= m <= i && SeasonKey(rows[m]) == SeasonKey(rows[i]) && rows[m].dt == StartOf(rows, i)
  {
    var ks := Keys(rows);
    var m := Grouping.FirstIndex(ks, SeasonKey(rows[i]));
    assert ks[i] == SeasonKey(rows[i]);
    assert ks[m] == SeasonKey(rows[m]);
  }

  /** The start is the datetime of the first row, not the earliest
      datetime: a season whose first row is later than its second row
      starts at the first row's datetime. */
  lemma StartIsFirstNotEarliest()
    ensures var rows := [Row(2020, "regular", 5, None), Row(2020, "regular", 3, None)];
            StartOf(rows, 1) == 5 && rows[1].dt < StartOf(rows, 1)
  {
    var rows := [Row(2020, "regular", 5, None), Row(2020, "regular", 3, None)];
    assert SeasonKey(rows[1]) == SeasonKey(rows[0]);
    assert Keys(rows)[0] == SeasonKey(rows[1]);
  }

  /** Rows are processed in table order without looking ahead: rows
      appended at the end change no earlier row's start. */
  lemma LaterRowsDoNotMatter(rows: seq<Row>, more: seq<Row>, i: nat)
    requires i < |rows|
    ensures StartOf(rows + more, i) == StartOf(rows, i)
  {
    var all := rows + more;
    var ks, ks0 := Keys(all), Keys(rows);
    var k := SeasonKey(rows[i]);
    assert all[i] == rows[i];
    assert ks[..|rows|] == ks0;
    assert ks0[i] == k;
    Grouping.FirstIndexPrefix(ks, k, |rows|);
  }

  /** Another season's rows do not affect this season's start: replacing
      a row of another season by a row of yet another season leaves the
      start unchanged. */
  lemma OtherSeasonsDoNotMatter(rows: seq<Row>, i: nat, j: nat, r: Row)
    requires i < |rows| && j < |rows| && j != i
    requires SeasonKey(rows[j]) != SeasonKey(rows[i]) && SeasonKey(r) != SeasonKey(rows[i])
    ensures StartOf(rows[j := r], i) == StartOf(rows, i)
  {
    var rows' := rows[j := r];
    var k := SeasonKey(rows[i]);
    assert Keys(rows') == Keys(rows)[j := SeasonKey(r)];
    Grouping.FirstIndexUpdate(Keys(rows), j, SeasonKey(r), k);
    assert Keys(rows)[i] == k;
  }

  /** Different seasons never share a key: the year's text has no `-`
      after its sign, so the key determines both year and season type. */
  lemma SeasonKeyInjective(a: Row, b: Row)
    requires SeasonKey(a) == SeasonKey(b)
    ensures a.year == b.year && a.seasonType == b.seasonType
  {
    var sa, sb := Strings.IntToString(a.year), Strings.IntToString(b.year);
    var key := SeasonKey(a);
    assert key == sa + "-" + a.seasonType && key == sb + "-" + b.seasonType;
    IntTextHasNoInnerDash(a.year);
    IntTextHasNoInnerDash(b.year);
    assert key[|sa|] == '-' && key[|sb|] == '-';
    assert forall t :: 0 <= t < |sa| ==> key[t] == sa[t];
    assert forall t :: 0 <= t < |sb| ==> key[t] == sb[t];
    assert |sa| == |sb|;
    assert sa == key[..|sa|] && sb == key[..|sb|];
    Strings.IntToStringInjective(a.year, b.year);
    assert a.seasonType == key[|sa| + 1..] && b.seasonType == key[|sb| + 1..];
  }

  /** The decimal text of an integer is at least one character long and
      has only digits after its first character. */
  lemma IntTextHasNoInnerDash(y: int)
    ensures forall t :: 1 <= t < |Strings.IntToString(y)| ==> Strings.IsDigit(Strings.IntToString(y)[t])
  {
    if y < 0 {
      var s := Strings.IntToString(y);
      assert s == "-" + Strings.NatToString(-y);
      assert forall t :: 1 <= t < |s| ==> s[t] == Strings.NatToString(-y)[t - 1];
    }
  }
}
