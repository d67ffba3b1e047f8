/**
  The data-preparation helpers of the pitch classifier: counting missing
  entries, normalising a raw Statcast frame, dropping rare pitch types and
  splitting a frame into earlier games and the most recent game.
 */
module Utils {
  import opened Sequences
  import opened Statcast

  // ---------------------------------------------------------------------------
  // count_missing_values
  // ---------------------------------------------------------------------------

  function MissingIn(c: Column): Pitch -> bool
  {
    (p: Pitch) => p.Get(c) == Null
  }

  /** The number of rows of `t` whose entry in column `c` is missing. */
  function MissingCount(t: seq<Pitch>, c: Column): nat
  {
    |Filter(t, MissingIn(c))|
  }

  /**
    Column-wise sum of the null indicator matrix: entry `j` of the result
    belongs to column `AllColumns[j]`.
   */
  method CountMissingValues(t: seq<Pitch>) returns (counts: seq<nat>)
    ensures |counts| == |AllColumns|
    ensures forall j :: 0 <= j < |AllColumns| ==> counts[j] == MissingCount(t, AllColumns[j])
    ensures forall j :: 0 <= j < |counts| ==> counts[j] <= |t|
  {
    counts := seq(|AllColumns|, _ => 0);
    for i := 0 to |t|
      invariant |counts| == |AllColumns|
      invariant forall j :: 0 <= j < |AllColumns| ==> counts[j] == MissingCount(t[..i], AllColumns[j])
    {
      forall j | 0 <= j < |AllColumns|
        ensures MissingCount(t[..i + 1], AllColumns[j])
             == MissingCount(t[..i], AllColumns[j]) + (if t[i].Get(AllColumns[j]) == Null then 1 else 0)
      {
        assert t[..i + 1] == t[..i] + [t[i]];
        FilterAppend(t[..i], [t[i]], MissingIn(AllColumns[j]));
      }
      counts := seq(|AllColumns|, j requires 0 <= j < |counts| =>
        counts[j] + (if t[i].Get(AllColumns[j]) == Null then 1 else 0));
    }
    assert t[..|t|] == t;
  }

  // ---------------------------------------------------------------------------
  // process_statcast_data
  // ---------------------------------------------------------------------------

  /** Game type codes of exhibition and spring-training games. */
  const ExcludedGameTypes: set<string> := {"E", "S"}

  /** A row whose game type is missing is not excluded: `isin` is false on NaN. */
  predicate IsExhibitionOrSpring(r: RawPitch)
  {
    r.gameType.Present? && r.gameType.value in ExcludedGameTypes
  }

  predicate IsCountedGame(r: RawPitch)
  {
    !IsExhibitionOrSpring(r)
  }

  /** Keeps the seven processed columns of a raw row, with their entries unchanged. */
  function SelectColumns(r: RawPitch): (p: Pitch)
    ensures forall c :: p.Get(c) == r.Get(c)
  {
    Pitch(r.pitchType, r.releaseSpeed, r.releaseSpinRate, r.pfxX, r.pfxZ, r.stand, r.gameDate)
  }

  /** The column names of a processed frame, in order. */
  lemma {:induction false} ProcessedColumnOrder()
    ensures Map(AllColumns, ColumnName)
         == ["pitch_type", "release_speed", "release_spin_rate", "pfx_x", "pfx_z", "stand", "game_date"]
  {
    MapAt(AllColumns, ColumnName);
  }

  /**
    Drops exhibition and spring games and projects every remaining row to the
    seven processed columns. The pitch-type cast to a categorical dtype leaves
    the label values as they are.
   */
  function ProcessStatcastData(raw: seq<RawPitch>): (t: seq<Pitch>)
    ensures |t| + |Filter(raw, IsExhibitionOrSpring)| == |raw|
    ensures forall i :: 0 <= i < |t| ==>
              exists j :: 0 <= j < |raw| && IsCountedGame(raw[j]) && t[i] == SelectColumns(raw[j])
    ensures forall j :: 0 <= j < |raw| && IsCountedGame(raw[j]) ==> SelectColumns(raw[j]) in t
  {
    var counted := Filter(raw, IsCountedGame);
    FilterPartition(raw, IsCountedGame, IsExhibitionOrSpring);
    FilterMembers(raw, IsCountedGame);
    MapAt(counted, SelectColumns);
    Map(counted, SelectColumns)
  }

  /**
    Processing works row by row: the processed concatenation of two raw frames
    is the concatenation of their processed frames.
   */
  lemma {:induction false} ProcessAppend(a: seq<RawPitch>, b: seq<RawPitch>)
    ensures ProcessStatcastData(a + b) == ProcessStatcastData(a) + ProcessStatcastData(b)
  {
    FilterAppend(a, b, IsCountedGame);
    MapAppend(Filter(a, IsCountedGame), Filter(b, IsCountedGame), SelectColumns);
  }

  /**
    A single raw row is dropped when it comes from an exhibition or spring
    game, and is otherwise kept as its seven processed columns. With
    `ProcessAppend` this fixes the processed frame, row order and
    multiplicity included, for every raw frame.
   */
  lemma {:induction false} ProcessSingleRow(r: RawPitch)
    ensures ProcessStatcastData([r]) == if IsCountedGame(r) then [SelectColumns(r)] else []
  {
  }

  /** The processed rows appear in the order of their raw rows. */
  lemma {:induction false} ProcessPreservesOrder(raw: seq<RawPitch>)
    ensures IsSubsequence(ProcessStatcastData(raw), Map(raw, SelectColumns))
  {
    FilterIsSubsequence(raw, IsCountedGame);
    MapPreservesSubsequence(Filter(raw, IsCountedGame), raw, SelectColumns);
  }

  // ---------------------------------------------------------------------------
  // filter_rare_pitch_types
  // ---------------------------------------------------------------------------

  /** The pitch-type column of a frame. */
  function Labels(t: seq<Pitch>): seq<Cell<string>>
  {
    Map(t, PitchTypeOf)
  }

  /** How often `code` occurs in the pitch-type column of `t`. */
  function Occurrences(t: seq<Pitch>, code: string): nat
  {
    multiset(Labels(t))[Present(code)]
  }

  /** The frequency table of the recorded pitch types; missing labels are not counted. */
  function ValueCounts(t: seq<Pitch>): (counts: map<string, nat>)
    ensures forall l :: l in counts <==> Present(l) in Labels(t)
    ensures forall l :: l in counts ==> counts[l] == Occurrences(t, l)
  {
    if |t| == 0 then map[]
    else
      var rest := ValueCounts(t[1..]);
      assert Labels(t) == [t[0].pitchType] + Labels(t[1..]);
      match t[0].pitchType
      case Missing => rest
      case Present(l) => rest[l := if l in rest then rest[l] + 1 else 1]
  }

  /** The labels whose count reaches the threshold. */
  function FrequentLabels(counts: map<string, nat>, count: int): set<string>
  {
    set l | l in counts && counts[l] >= count
  }

  function HasLabelIn(labels: set<string>): Pitch -> bool
  {
    (p: Pitch) => p.pitchType.Present? && p.pitchType.value in labels
  }

  /** A row is frequent in `t` when its label is recorded and occurs at least `count` times in `t`. */
  function IsFrequentIn(t: seq<Pitch>, count: int): Pitch -> bool
  {
    (p: Pitch) => p.pitchType.Present? && Occurrences(t, p.pitchType.value) >= count
  }

  /** The threshold `filter_rare_pitch_types` uses when none is given. */
  const DefaultMinCount: int := 5

  /**
    Keeps exactly the rows whose pitch type occurs at least `count` times in
    `t`, in their original order. Rows without a pitch type are always dropped.
   */
  function FilterRarePitchTypes(t: seq<Pitch>, count: int): (r: seq<Pitch>)
    ensures forall i :: 0 <= i < |r| ==>
              r[i].pitchType.Present? && Occurrences(t, r[i].pitchType.value) >= count
    ensures forall i :: 0 <= i < |t| ==>
              (t[i] in r <==> t[i].pitchType.Present? && Occurrences(t, t[i].pitchType.value) >= count)
  {
    var keep := FrequentLabels(ValueCounts(t), count);
    MapAt(t, PitchTypeOf);
    Filter(t, HasLabelIn(keep))
  }

  /**
    The frequency-table pipeline selects the same rows, in the same order, as
    filtering by the rule "the label occurs at least `count` times in `t`".
   */
  lemma {:induction false} FilterRareMatchesRule(t: seq<Pitch>, count: int)
    ensures FilterRarePitchTypes(t, count) == Filter(t, IsFrequentIn(t, count))
  {
    var keep := FrequentLabels(ValueCounts(t), count);
    MapAt(t, PitchTypeOf);
    FilterCongruent(t, HasLabelIn(keep), IsFrequentIn(t, count));
  }

  /** The retained rows keep their original relative order. */
  lemma {:induction false} FilterRareIsSubsequence(t: seq<Pitch>, count: int)
    ensures IsSubsequence(FilterRarePitchTypes(t, count), t)
  {
    FilterRareMatchesRule(t, count);
    FilterIsSubsequence(t, IsFrequentIn(t, count));
  }

  /**
    The label counts after filtering: a label that reaches the threshold keeps
    all its rows, any other label loses all of them.
   */
  lemma {:induction false} FilterRareLabelCounts(t: seq<Pitch>, count: int, code: string)
    ensures Occurrences(FilterRarePitchTypes(t, count), code)
         == if Occurrences(t, code) >= count then Occurrences(t, code) else 0
  {
    var p := IsFrequentIn(t, count);
    FilterRareMatchesRule(t, count);
    if Occurrences(t, code) >= count {
      FilterKeepsCount(t, p, PitchTypeOf, Present(code));
    } else {
      FilterDropsCount(t, p, PitchTypeOf, Present(code));
    }
  }

  /** Every retained label has at least `count` rows in the filtered frame itself. */
  lemma {:induction false} FilterRareSupport(t: seq<Pitch>, count: int)
    ensures var r := FilterRarePitchTypes(t, count);
            forall i :: 0 <= i < |r| ==>
              r[i].pitchType.Present? && Occurrences(r, r[i].pitchType.value) >= count
  {
    var r := FilterRarePitchTypes(t, count);
    forall i | 0 <= i < |r|
      ensures Occurrences(r, r[i].pitchType.value) >= count
    {
      FilterRareLabelCounts(t, count, r[i].pitchType.value);
    }
  }

  /** Filtering a filtered frame again with the same threshold changes nothing. */
  lemma {:induction false} FilterRareIdempotent(t: seq<Pitch>, count: int)
    ensures FilterRarePitchTypes(FilterRarePitchTypes(t, count), count) == FilterRarePitchTypes(t, count)
  {
    var r := FilterRarePitchTypes(t, count);
    FilterRareSupport(t, count);
    FilterRareMatchesRule(r, count);
    FilterKeepsAll(r, IsFrequentIn(r, count));
  }

  // ---------------------------------------------------------------------------
  // split_last_game
  // ---------------------------------------------------------------------------

  /** The maximum of the distinct game dates of a non-empty frame. */
  function LatestGameDate(t: seq<Pitch>): (d: int)
    requires |t| > 0
    ensures forall i :: 0 <= i < |t| ==> t[i].gameDate <= d
    ensures exists i :: 0 <= i < |t| && t[i].gameDate == d
  {
    if |t| == 1 then t[0].gameDate
    else
      var later := LatestGameDate(t[1..]);
      if t[0].gameDate > later then t[0].gameDate else later
  }

  function DateIs(d: int): Pitch -> bool
  {
    (p: Pitch) => p.gameDate == d
  }

  function DateIsNot(d: int): Pitch -> bool
  {
    (p: Pitch) => p.gameDate != d
  }

  /** A frame split into the games before the most recent one and the most recent game. */
  datatype Split = Split(previousGames: seq<Pitch>, currentGame: seq<Pitch>)

  /**
    Splits a frame on its latest game date. An empty frame has no latest
    date; the model reports it as an error rather than choosing what the
    library's maximum of nothing would be. Otherwise the last
    game holds the rows on the latest date, the previous games hold rows dated
    before it, and together they hold every input row exactly as often as the
    input does.
   */
  function SplitLastGame(t: seq<Pitch>): (r: Result<Split>)
    ensures r.Err? <==> |t| == 0
    ensures r.Ok? ==>
              && |t| > 0
              && var d := LatestGameDate(t);
                 var prev := r.value.previousGames;
                 var cur := r.value.currentGame;
                 && (forall i :: 0 <= i < |cur| ==> cur[i].gameDate == d)
                 && (forall i :: 0 <= i < |prev| ==> prev[i].gameDate < d)
                 && |cur| > 0
                 && multiset(prev) + multiset(cur) == multiset(t)
  {
    if |t| == 0 then Err(EmptyFrame)
    else
      var last := LatestGameDate(t);
      FilterPartition(t, DateIsNot(last), DateIs(last));
      FilterMembers(t, DateIsNot(last));
      Ok(Split(Filter(t, DateIsNot(last)), Filter(t, DateIs(last))))
  }

  /**
    A row is in the last game exactly when it is dated on the latest date, and
    in the previous games exactly when it is dated before it.
   */
  lemma {:induction false} SplitMembership(t: seq<Pitch>)
    requires |t| > 0
    ensures var d := LatestGameDate(t);
            var s := SplitLastGame(t).value;
            forall i :: 0 <= i < |t| ==>
              && (t[i] in s.currentGame <==> t[i].gameDate == d)
              && (t[i] in s.previousGames <==> t[i].gameDate < d)
  {
  }

  /** Both parts keep the input's row order. */
  lemma {:induction false} SplitPreservesOrder(t: seq<Pitch>)
    requires |t| > 0
    ensures var s := SplitLastGame(t).value;
            IsSubsequence(s.previousGames, t) && IsSubsequence(s.currentGame, t)
  {
    var last := LatestGameDate(t);
    FilterIsSubsequence(t, DateIsNot(last));
    FilterIsSubsequence(t, DateIs(last));
  }

  /** A frame holding a single game has no earlier games: all of it is the last game. */
  lemma {:induction false} SplitSingleGame(t: seq<Pitch>)
    requires |t| > 0
    requires forall i :: 0 <= i < |t| ==> t[i].gameDate == t[0].gameDate
    ensures SplitLastGame(t) == Ok(Split([], t))
  {
    var last := LatestGameDate(t);
    FilterKeepsAll(t, DateIs(last));
  }

  /** The latest date of an earlier block followed by a later block is the later date. */
  lemma {:induction false} LatestOfTwoGames(earlier: seq<Pitch>, later: seq<Pitch>, a: int, b: int)
    requires a < b
    requires |later| > 0
    requires forall i :: 0 <= i < |earlier| ==> earlier[i].gameDate == a
    requires forall i :: 0 <= i < |later| ==> later[i].gameDate == b
    ensures LatestGameDate(earlier + later) == b
  {
    var t := earlier + later;
    assert t[|earlier|] == later[0];
    var k :| 0 <= k < |t| && t[k].gameDate == LatestGameDate(t);
    if k < |earlier| {
      assert t[k] == earlier[k];
    } else {
      assert t[k] == later[k - |earlier|];
    }
  }

  /**
    Rows of an earlier game followed by rows of a later game split back into
    exactly those two blocks.
   */
  lemma {:induction false} SplitTwoGames(earlier: seq<Pitch>, later: seq<Pitch>, a: int, b: int)
    requires a < b
    requires |later| > 0
    requires forall i :: 0 <= i < |earlier| ==> earlier[i].gameDate == a
    requires forall i :: 0 <= i < |later| ==> later[i].gameDate == b
    ensures SplitLastGame(earlier + later) == Ok(Split(earlier, later))
  {
    var t := earlier + later;
    LatestOfTwoGames(earlier, later, a, b);
    var prev := Filter(t, DateIsNot(b));
    var cur := Filter(t, DateIs(b));
    assert prev == earlier by {
      FilterAppend(earlier, later, DateIsNot(b));
      FilterKeepsAll(earlier, DateIsNot(b));
      FilterKeepsNone(later, DateIsNot(b));
      assert earlier + [] == earlier;
    }
    assert cur == later by {
      FilterAppend(earlier, later, DateIs(b));
      FilterKeepsNone(earlier, DateIs(b));
      FilterKeepsAll(later, DateIs(b));
      assert [] + later == later;
    }
  }
}
