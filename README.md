# Rule-based packet classifier

This project models the rule-based predictor of a packet-capture attack detector (`scripts/rule_based.py`). The predictor is a burst detector with one piece of state: the time of the last packet it classified. That time starts at 0.0. Each call measures the gap between the packet's `Time` and that remembered time, then remembers the packet's `Time`, whatever the verdict. The call returns 1 (attack) exactly when the gap is below 0.00125 s and the packet's `Length` is 8 or 32; otherwise it returns 0 (benign).

The evaluation script `run` classifies the rows of a dataset in row order. It counts the predictions that differ from the labels and reports `1 - incorrect / len(dataset)`. As written, the labels it loads are overwritten with zeros before the loop. So the reported number is the share of rows predicted benign, and an empty dataset is a division by zero. `create_predictor` hands out the same stateful `rules` function, so every caller advances the same remembered time.

Everything is in one module, `RuleBased` (`rule_based.dfy`):

- `RuleEngine` is a class whose field `lastTime` is the module-level `last_time`. Its constructor is the module being loaded. `Rules`, `Evaluate`, `Run` and `CreatePredictor` are its methods.
- `Verdict` is the pure verdict of one call, given the previous time.
- `Predictions` and `FinalTime` feed a sequence of packets through the rule. They give the verdicts and the remembered time afterwards. They are the specification that `Evaluate` and `Run` are proved against.
- `Mismatches`, `Flagged` and `Accuracy` specify the counting and the accuracy arithmetic of `run`.

## Model

| member | source | states |
|---|---|---|
| `RuleBased.Verdict` | scripts/rule_based.py:19-33 | the verdict is 0 or 1, and it is 1 exactly when the packet arrives less than 1/800 s after the previous time and its length is 8 or 32 |
| `RuleBased.RuleEngine.constructor` | scripts/rule_based.py:11 | before any call the remembered time is 0.0 |
| `RuleBased.RuleEngine.Rules` | scripts/rule_based.py:17-33 | returns the verdict for the gap from the old remembered time; the result is 0 or 1; afterwards the remembered time is the packet's time for both verdicts, and nothing else changes |
| `RuleBased.Predictions` | scripts/rule_based.py:23-33 | feeding packets one after another gives one verdict per packet, each 0 or 1 |
| `RuleBased.FinalTime` | scripts/rule_based.py:23-25 | after feeding a non-empty sequence the remembered time is the last packet's time; after an empty one it is unchanged |
| `RuleBased.PredictionAt` | scripts/rule_based.py:23-29 | the verdict for packet i is taken on its gap from packet i-1, and for the first packet on its gap from the starting time |
| `RuleBased.PredictionsSnoc` | scripts/rule_based.py:76-78 | classifying one more row appends exactly one verdict, taken against the time the earlier rows left behind |
| `RuleBased.UnsuspiciousLengthIsBenign` | scripts/rule_based.py:20-33 | a packet whose length is neither 8 nor 32 is classified 0 whatever its timing |
| `RuleBased.NonPositiveGapIsBurst` | scripts/rule_based.py:24-33 | a packet no later than its predecessor (or than the starting time) is a burst, so it is flagged exactly when its length is suspicious |
| `RuleBased.FirstPacketGap` | scripts/rule_based.py:11-33 | starting from time 0.0, the value the constructor gives the remembered time, the first packet's gap is its own time |
| `RuleBased.RepeatedPacket` | scripts/rule_based.py:24-29 | the second of two identical packets in a row has gap 0, so it is flagged exactly when its length is suspicious |
| `RuleBased.Mismatches` | scripts/rule_based.py:65-81 | the count of wrong predictions never exceeds the number of rows |
| `RuleBased.MismatchesCountsIndices` | scripts/rule_based.py:76-81 | the count equals the number of row indices whose prediction differs from the label |
| `RuleBased.RuleEngine.Evaluate` | scripts/rule_based.py:65-81 | the loop's counter equals the number of rows whose prediction, computed in row order with the remembered time threaded through, differs from its label; it stays within 0..len(dataset); afterwards the remembered time is the last row's time |
| `RuleBased.Zeros` | scripts/rule_based.py:73 | the label overwrite: a label array of len(dataset) entries, every one 0 (benign) |
| `RuleBased.MismatchesAgainstZeros` | scripts/rule_based.py:73-81 | against all-zero labels, the wrong predictions are exactly the rows predicted 1 |
| `RuleBased.Flagged` | scripts/rule_based.py:80-81 | the number of rows predicted 1 never exceeds the number of rows |
| `RuleBased.FlaggedCountsAttacks` | scripts/rule_based.py:73-81 | for 0/1 predictions, the flagged count equals the number of row indices predicted 1 |
| `RuleBased.Accuracy` | scripts/rule_based.py:83 | an empty dataset is a division by zero; otherwise the accuracy lies in [0, 1] when the count is within the row count, is 1 exactly when nothing is wrong and 0 exactly when everything is |
| `RuleBased.AccuracyOfThreeInTen` | scripts/rule_based.py:83 | ten rows with three wrong predictions report 0.7 |
| `RuleBased.RuleEngine.Run` | scripts/rule_based.py:63-84 | with labels overwritten by zeros, the accuracy is computed from the number of rows predicted 1; it fails exactly on an empty dataset and otherwise lies in [0, 1]; the remembered time ends at the last row's time |
| `RuleBased.RuleEngine.CreatePredictor` | scripts/rule_based.py:87-90 | the predictor handed out is the engine itself, not a copy, so its calls share the remembered time with `run` and every other caller |

## Left out

- Reading the dataset and the label file (`pd.read_csv`, `np.load`) is not modelled: `Run` takes the rows as a parameter. `data/__init__.py` does not define `PREPROCESSED_TEST` or `LABELS_TEST`, and the loaded labels are replaced by zeros at line 73 in any case.
- Only the `Time` and `Length` columns of a row are modelled, because `rules` reads no other column.
- `Time` is an exact real and the threshold is exactly 1/800. The IEEE-754 rounding of the float subtraction and of the float literal 0.00125 is not modelled. `Accuracy` computes `1 - incorrect / len(dataset)` (line 83) as an exact real too, without the rounding of the float division and subtraction.
- Labels are integers. The source compares an integer prediction with the float zeros of `np.zeros`, which is equal-valued.
- `Evaluate` requires as many labels as rows, which `run` always guarantees by building the labels from `len(dataset)`. It also assumes the dataset's default 0..n-1 row index, which `pd.read_csv` gives.
- Logging calls are not modelled. The one value `run` logs is the accuracy (line 84); `run` itself returns None, and `Run`'s result stands for that logged value.
- The commented-out alternative `rules` (lines 36-60) and the commented-out dataset choices (lines 68-69, 72) are not live code.
- The other scripts (feature extraction, preprocessing, model training and evaluation, the demo stub, the CLI) are sklearn, pandas and joblib plumbing or a stub, and are not part of this model.
