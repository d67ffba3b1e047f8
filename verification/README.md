# Pitch-classification data preparation, in Dafny

This project models the data-preparation core of a per-pitcher pitch-type
classifier. Each pitcher's Statcast frame is normalised by dropping
exhibition and spring-training games and keeping seven columns. The frame is
then split into the pitcher's earlier games (training data) and the most
recent game (test data). Pitch types thrown fewer than five times are removed
from the training side only. Finally the `pitch_type` label is separated from
the feature columns.

A frame is a `seq` of immutable row records. A pandas boolean-mask selection
is the order-preserving `Sequences.Filter`, and a column selection is
`Sequences.Map`. The measurements (release speed, spin rate, `pfx_x`, `pfx_z`)
are carried values that are never computed on. A nullable entry is a
`Cell<T>` (`Missing` stands for NaN). `game_date` is an `int` ordinal.

Files:
- `sequences.dfy`: `Filter`, `Map`, the `IsSubsequence` order relation, and
  lemmas about them (partition, concatenation, counts kept by a filter).
- `statcast.dfy`: the row types (`RawPitch`, `Pitch`, `Features`), the
  `Column` enumeration with the frame's column order, and the split of a row
  into features and label.
- `utils.dfy`: `count_missing_values`, `process_statcast_data`,
  `filter_rare_pitch_types` and `split_last_game`.
- `make_models.dfy`: `prepare_data_ml`.

Behaviour of the code that a reader might not expect:
- `process_statcast_data` drops only game types `E` and `S` (utils.py:19).
  Postseason rows and rows with no game type are kept.
  `Utils.IsExhibitionOrSpring` models that test.
- Rows whose pitch type is missing are always dropped from the training
  side. `value_counts` leaves NaN out of its index, so `isin` never matches
  such a row. The test side keeps them.
- Splitting an empty frame is reported as an error (`Err(EmptyFrame)`); see
  "Left out" for what the library itself does there.

## Model

| member | source | states |
|---|---|---|
| Utils.CountMissingValues | utils.py:7-8 | one count per processed column, in column order; each equals the number of rows whose entry in that column is missing, so none exceeds the row count |
| Statcast.DropPitchType | make-models.py:21-25 | dropping `pitch_type` keeps every other column's entry unchanged, and rejoining the dropped label restores the original row |
| Statcast.WithPitchType | make-models.py:21-22 | a feature row rejoined with a label carries that label and the feature row's entries in every other column |
| Utils.SelectColumns | utils.py:20-24 | the projected row has, in each of the seven kept columns, the raw row's entry unchanged |
| Utils.ProcessedColumnOrder | utils.py:20-24 | the processed frame's columns are pitch_type, release_speed, release_spin_rate, pfx_x, pfx_z, stand, game_date, in that order |
| Utils.ProcessStatcastData | utils.py:18-26 | every output row is the projection of an input row whose game type is not E or S; every such input row appears projected in the output; output length plus the number of E/S rows equals the input length |
| Utils.ProcessAppend | utils.py:19-24 | processing the concatenation of two raw frames gives the concatenation of their processed frames, so each row is processed on its own and the frame order is kept |
| Utils.ProcessSingleRow | utils.py:19-24 | a single raw row is dropped when its game type is E or S and is otherwise kept once, as its seven processed columns; with the append lemma this fixes the processed frame's rows, their order and their multiplicity |
| Utils.ProcessPreservesOrder | utils.py:19-24 | the processed rows are an order-preserving subsequence of the projected input |
| Utils.ValueCounts | utils.py:31 | the frequency table lists exactly the recorded labels, each with its number of occurrences in the frame |
| Utils.FilterRarePitchTypes | utils.py:30-33 | every kept row has a recorded label occurring at least `count` times in the input, and an input row is kept exactly when its label is recorded and reaches that count |
| Utils.FilterRareMatchesRule | utils.py:31-32 | the frequency-table and `isin` pipeline selects the same rows, in the same order, as filtering by the rule "label recorded and occurring at least `count` times in the input" |
| Utils.FilterRareIsSubsequence | utils.py:32-33 | the retained rows are an order-preserving subsequence of the input |
| Utils.FilterRareLabelCounts | utils.py:31-32 | after filtering, a label reaching the threshold keeps all of its rows and any other label has none |
| Utils.FilterRareSupport | utils.py:30-33 | every retained label occurs at least `count` times in the filtered frame itself |
| Utils.FilterRareIdempotent | utils.py:30-33 | filtering the filtered frame again with the same threshold returns it unchanged |
| Utils.LatestGameDate | utils.py:38-39 | the latest date is the date of some row and no row is dated later |
| Utils.SplitLastGame | utils.py:37-42 | an empty frame is an error; otherwise every last-game row is dated on the maximum date, every previous-game row strictly before it, the last game is non-empty, and the two parts together hold every input row exactly as often as the input does |
| Utils.SplitMembership | utils.py:39-41 | an input row is in the last game exactly when it is dated on the maximum date, and in the previous games exactly when it is dated before it |
| Utils.SplitPreservesOrder | utils.py:40-41 | both parts are order-preserving subsequences of the input |
| Utils.SplitSingleGame | utils.py:38-42 | a frame with a single game date splits into no previous games and the whole frame as the last game |
| Utils.LatestOfTwoGames | utils.py:38-39 | a block of one date followed by a non-empty block of a later date has the later date as its maximum |
| Utils.SplitTwoGames | utils.py:37-42 | a block of an earlier game followed by a block of a later game splits back into exactly those two blocks |
| MakeModels.RejoinSeparated | make-models.py:21-26 | the feature frame rejoined with the label column gives back the frame, so X and y come from the same rows in the same order |
| MakeModels.PrepareDataMl | make-models.py:13-28 | an empty frame is an error; otherwise X and y have equal lengths on each side and rejoin row by row, the test rows are exactly the unfiltered last-game partition, the training rows are exactly the previous games filtered with threshold 5, every label in `y_train` occurs at least 5 times in `y_train`, and every training row's date is strictly earlier than every test row's date |
| MakeModels.TrainingSupport | make-models.py:18-22 | every label of the filtered training frame is recorded and occurs at least 5 times in that label column |
| MakeModels.TrainingBeforeDate | make-models.py:16-18 | when every previous-game row is dated before the latest date, so is every row kept for training |
| MakeModels.PrepareSingleGame | make-models.py:16-18 | a frame with one game date yields empty training frames, and the test frames rejoin to the whole input |

## Left out

- `train_model` is left out: it covers imputation, scaling, one-hot encoding and the cross-validated logistic-regression grid search (make-models.py:31-80). These are library calls with floating-point optimisation.
- The scoring and reporting steps are left out (make-models.py:92-96). They fit the model, score it and print the results.
- The per-file script loops and their I/O are left out (make-models.py:83-96, make-data.py:17-20): listing the data directory, reading and writing parquet files, and dumping models with joblib.
- `check_data` is left out (utils.py:45-58). It only reads files and prints; the counting it calls is modelled as `Utils.CountMissingValues`.
- `get_mlbam_key` and `statcast_pitcher` are left out (utils.py:12-14, make-data.py:5-18). They are network lookups. The raw frame is an input to `Utils.ProcessStatcastData`.
- The cast of `pitch_type` to a categorical dtype (utils.py:25) is the identity on label values. A categorical `value_counts` also lists unused categories with count 0. No row carries such a label, so the mask is the same, and `Utils.ValueCounts` lists only the labels that occur.
- Missing game dates (NaT) are not modelled. `game_date` is always present, as an integer ordinal.
- Measurement values are opaque `real`s, and nothing is computed on them.
- `Utils.CountMissingValues` returns the counts as a sequence aligned with `Statcast.AllColumns`, not as a pandas Series indexed by column name.
- Utils.SplitLastGame: the empty frame is a modelling choice, not a claim about the library. What `unique().max()` (utils.py:38-39) does on an empty date column depends on the pandas version and the column's dtype: it can raise, or it can return NaT, after which both masks select nothing and the split is two empty frames. The model returns `Err(EmptyFrame)` instead of picking one of these.
- MakeModels.PrepareDataMl: for the same reason an empty frame gives `Err(EmptyFrame)`, where the library either raises or returns four empty frames, depending on its version.
