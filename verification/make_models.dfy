/**
  The data preparation step of the model-training script: split a pitcher's
  frame on its most recent game, drop rare pitch types from the training side
  only, and separate the pitch-type label from the feature columns.
 */
module MakeModels {
  import opened Sequences
  import opened Statcast
  import opened Utils

  /** The feature and label frames handed to the learner. */
  datatype MlData = MlData(
    xTrain: seq<Features>,
    yTrain: seq<Cell<string>>,
    xTest: seq<Features>,
    yTest: seq<Cell<string>>)

  /** Feature rows rejoined with their labels, row by row. */
  function Rejoin(x: seq<Features>, y: seq<Cell<string>>): seq<Pitch>
    requires |x| == |y|
  {
    seq(|x|, i requires 0 <= i < |x| => WithPitchType(x[i], y[i]))
  }

  /** Dropping the label column and selecting it loses nothing: rejoining gives the frame back. */
  lemma {:induction false} RejoinSeparated(t: seq<Pitch>)
    ensures Rejoin(Map(t, DropPitchType), Labels(t)) == t
  {
    MapAt(t, DropPitchType);
    MapAt(t, PitchTypeOf);
  }

  /**
    The training and test frames. An empty frame has no latest game date and
    is reported as an error, as in the split. Otherwise X and y are cut from the same
    rows on each side, the test side is the unfiltered last game, the training
    side is the earlier games without rare pitch types, every training label
    keeps at least the default number of rows, and every training pitch was
    thrown before every test pitch.
   */
  function PrepareDataMl(t: seq<Pitch>): (r: Result<MlData>)
    ensures r.Err? <==> |t| == 0
    ensures r.Ok? ==>
              && |r.value.xTrain| == |r.value.yTrain|
              && |r.value.xTest| == |r.value.yTest|
              && SplitLastGame(t).Ok?
              && Rejoin(r.value.xTest, r.value.yTest) == SplitLastGame(t).value.currentGame
              && Rejoin(r.value.xTrain, r.value.yTrain)
                 == FilterRarePitchTypes(SplitLastGame(t).value.previousGames, DefaultMinCount)
    ensures r.Ok? ==>
              forall i :: 0 <= i < |r.value.yTrain| ==>
                r.value.yTrain[i].Present? && multiset(r.value.yTrain)[r.value.yTrain[i]] >= DefaultMinCount
    ensures r.Ok? ==>
              forall i, j :: 0 <= i < |r.value.xTrain| && 0 <= j < |r.value.xTest| ==>
                r.value.xTrain[i].gameDate < r.value.xTest[j].gameDate
  {
    match SplitLastGame(t)
    case Err(e) => Err(e)
    case Ok(Split(previous, current)) =>
      var train := FilterRarePitchTypes(previous, DefaultMinCount);
      RejoinSeparated(train);
      RejoinSeparated(current);
      TrainingSupport(previous, train);
      TrainingBeforeDate(previous, train, LatestGameDate(t));
      MapAt(train, DropPitchType);
      MapAt(current, DropPitchType);
      Ok(MlData(Map(train, DropPitchType), Labels(train), Map(current, DropPitchType), Labels(current)))
  }

  /** The training labels each keep at least the default number of rows. */
  lemma {:induction false} TrainingSupport(previous: seq<Pitch>, train: seq<Pitch>)
    requires train == FilterRarePitchTypes(previous, DefaultMinCount)
    ensures forall i :: 0 <= i < |Labels(train)| ==>
              Labels(train)[i].Present? && multiset(Labels(train))[Labels(train)[i]] >= DefaultMinCount
  {
    FilterRareSupport(previous, DefaultMinCount);
    MapAt(train, PitchTypeOf);
  }

  /** Rows kept for training keep any date bound the earlier games satisfy. */
  lemma {:induction false} TrainingBeforeDate(previous: seq<Pitch>, train: seq<Pitch>, d: int)
    requires forall k :: 0 <= k < |previous| ==> previous[k].gameDate < d
    requires train == FilterRarePitchTypes(previous, DefaultMinCount)
    ensures forall i :: 0 <= i < |train| ==> train[i].gameDate < d
  {
    FilterRareMatchesRule(previous, DefaultMinCount);
    FilterMembers(previous, IsFrequentIn(previous, DefaultMinCount));
    forall i | 0 <= i < |train|
      ensures train[i].gameDate < d
    {
      var k :| 0 <= k < |previous| && previous[k] == train[i];
    }
  }

  /** With a single game in the frame, nothing is left to train on and all of it is test data. */
  lemma {:induction false} PrepareSingleGame(t: seq<Pitch>)
    requires |t| > 0
    requires forall i :: 0 <= i < |t| ==> t[i].gameDate == t[0].gameDate
    ensures var d := PrepareDataMl(t).value;
            d.xTrain == [] && d.yTrain == [] && Rejoin(d.xTest, d.yTest) == t
  {
    SplitSingleGame(t);
  }
}
