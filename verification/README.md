# RACE feature construction, modelled in Dafny

This project models the deterministic core of `run_race.single.py`, a BERT/ALBERT
fine-tuning runner for the RACE multiple-choice reading-comprehension dataset:

- **Truncation** (`truncation.dfy`, module `Truncation`): `_truncate_seq_pair`, the
  greedy loop that pops the last token of the strictly longer list, or of the second
  list on a tie, until the pair fits the budget. It is modelled step by step
  (`Truncate`, `TruncateSeqPair`) and compared against an independent closed form
  (`KeptA`/`KeptB`): the longer list is cut down to the shorter, then both shrink
  alternately, the first list keeping the odd token.
- **Feature encoding** (`features.dfy`, module `Features`): the live per-option body of
  `convert_examples_to_features`. It lays out `[CLS] article [SEP] question option [SEP]`,
  builds segment ids and the attention mask, zero-pads to `max_seq_length`, and runs
  the three length asserts. The module also covers the per-example and per-list loops
  and `select_field`. The tokenizer is a pair of uninterpreted functions passed as
  parameters (`tokenize`, `toIds`).
- **Example reading** (`reader.dfy`, module `Reader`, with `decimal.dfy` for `str(i)`):
  the per-record expansion of `read_race_examples`. Each parsed document gives one example
  per answer. A missing key, a short list or an answer longer or shorter than one character raises.
- **Accuracy** (`metrics.dfy`, module `Metrics`): `accuracy`, with numpy's
  first-maximum `argmax` on integer logits.
- **Optimizer-step counter** (`training.dfy`, module `Training`): the
  gradient-accumulation counter of the training loop and its early `break`.
- `wrappers.dfy` holds `Option`, `Result` and the Python exceptions raised. `pylist.dfy`
  holds `[x] * n` and `sum`.

Exceptions are values: every operation returns `Failure(...)` wherever the program raises.
This covers a negative truncation budget (pop from an empty list), a failed length assert,
a missing JSON key, an index out of range, `ord` of a non-character, numpy's argmax of an
empty row, and a gradient-accumulation setting below 1.

Three behaviours of the code that its names do not suggest:
- `truth = ord(answer) - ord('A')` accepts any one-character answer, so a label is not
  confined to `0..3`; only 'A' to 'D' give `0..3` (`Reader.LetterLabel`).
- `_truncate_seq_pair` pops from `tokens_b` whenever the lengths are equal, so when an
  article of five tokens and an ending of five tokens are cut to eight, one token leaves
  each list, not two from the ending. `Truncation.TieBreak` states both budgets, eight
  and nine.
- Once truncation reaches the budget, `ques_len` is the kept ending minus the whole option
  length. It can be negative (`Features.QuesLenCanBeNegative`).

## Model

| member | source | states |
|---|---|---|
| Truncation.Truncate | run_race.single.py:268-282 | succeeds exactly when the budget is non-negative; each result is a prefix of its input; the kept total is min(total, budget); a pair that already fits is returned unchanged |
| Truncation.TruncateClosedForm | run_race.single.py:275-282 | the greedy loop ends at the closed form: the longer list is cut to the shorter, then both shrink alternately with the first list keeping the odd token |
| Truncation.TruncateBalances | run_race.single.py:271-282 | after an engaged truncation the kept lengths are equal, or the first is one longer, or the shorter list survived whole |
| Truncation.TieBreak | run_race.single.py:279-282 | on equal lengths the second list loses a token first: (5,5) cut to 9 keeps (5,4), cut to 8 keeps (4,4) |
| Truncation.TruncateSeqPair | run_race.single.py:275-282 | the in-place loop computes the same result and pops exactly max(0, len(a)+len(b)-budget) times |
| Decimal.NatToString | run_race.single.py:160 | `str(i)` is a non-empty string of decimal digits without a leading zero (except for 0 itself) |
| Decimal.ParseNatToString | run_race.single.py:160 | `str(i)` printed in decimal reads back as `i` |
| Reader.LetterLabel | run_race.single.py:155 | the label lies in 0..3 exactly when the answer is 'A'..'D', and then the answer is the label-th letter of "ABCD"; the label is 0 exactly for 'A' |
| Reader.ExampleAt | run_race.single.py:155-168 | one question converts without an exception exactly when its answer is one character and it has a question and at least four options |
| Reader.ReadQuestions | run_race.single.py:154-168 | succeeds exactly when every remaining question is readable; yields one example per remaining answer, in index order |
| Reader.ReadDocument | run_race.single.py:152-168 | succeeds exactly when the document is readable; example k has id `filename-k`, the article, question k, the first four options of k and label ord(answer k)-ord('A') |
| Reader.ReadDocuments | run_race.single.py:145-170 | succeeds exactly when every document is readable; the examples are as many as the answers in all documents, and file k contributes exactly its own examples as one contiguous block, in file order |
| Reader.RaceId | run_race.single.py:160 | the id is the file name, a dash, then only digits, so its last dash sits right after the file name |
| Reader.RaceIdInjective | run_race.single.py:160 | equal ids come from the same file name and the same question index |
| Reader.IdsUnique | run_race.single.py:147-168 | files with distinct names yield examples with pairwise distinct ids |
| Reader.SingleQuestionDocument | run_race.single.py:154-168 | a document with one question answered "C" yields exactly one example, labelled 2 |
| PyList.Repeat | run_race.single.py:236-242 | `[x] * n` has n copies of x for positive n and is empty otherwise |
| Features.Assemble | run_race.single.py:234-251 | the tokens are `[CLS]`, the kept article, `[SEP]`, the kept ending, `[SEP]`; the three arrays have length `max_seq_length`; the mask is 1 exactly on the tokens and sums to their count; segment ids are 1 exactly after the first `[SEP]`; with room for the markers and a length-preserving lookup it never raises |
| Features.PackOption | run_race.single.py:217-251 | on success the budget was at least 3; input ids, mask and segment ids have length `max_seq_length`; tokens are `[CLS]`, a prefix of the article, `[SEP]`, a prefix of question+option, `[SEP]`; ids are the vocabulary ids then zeros; the mask is 1 exactly on the tokens; segment ids are 1 exactly on the ending and its `[SEP]`; the mask sums to doc_len+ques_len+option_len+3 |
| Features.PackOptionSucceeds | run_race.single.py:230-249 | with `max_seq_length >= 3` and a length-preserving vocabulary lookup, packing never raises |
| Features.PackOptionLengths | run_race.single.py:219-233 | doc_len and the kept ending length are the closed-form truncation lengths; ques_len is the kept ending minus the option length when the budget is reached, the question's token count otherwise |
| Features.FullWhenBudgetReached | run_race.single.py:230-245 | when article, question and option reach the budget, the sequence fills all positions with no padding |
| Features.UntruncatedKeepsEverything | run_race.single.py:217-236 | when everything fits, all tokens are kept and doc_len, ques_len, option_len are the three token counts |
| Features.QuesLenCanBeNegative | run_race.single.py:220-233 | a ten-token article, one-token question and five-token option at length 6 give ques_len = -4 |
| Features.PackChoices | run_race.single.py:197-251 | succeeds exactly when every option packs; choice i is the packing of option i against the shared article and question alone |
| Features.ConvertExample | run_race.single.py:192-261 | succeeds exactly when every option packs against the once-tokenized article and question; choice i is that packing of option i; keeps the example's id and label, one choice per option, each with three arrays of the fixed length |
| Features.OptionsIndependent | run_race.single.py:215-217 | changing one option leaves every other option's features unchanged |
| Features.ConvertExamples | run_race.single.py:189-265 | succeeds exactly when every example converts, one feature per example in order |
| Features.ConvertExamplesSucceeds | run_race.single.py:242-249 | with `max_seq_length >= 3` and a length-preserving lookup every example converts, keeping its id and one choice per option |
| Features.SelectField | run_race.single.py:290-297 | one row per feature, one entry per choice, each entry the named field of that choice |
| Features.SelectFieldRectangular | run_race.single.py:290-297 | for converted four-option examples, the selected arrays form an examples x 4 x `max_seq_length` block |
| Metrics.ArgMax | run_race.single.py:286 | the result indexes a maximal entry and every earlier entry is strictly smaller (numpy's first maximum) |
| Metrics.CountCorrect | run_race.single.py:285-287 | the count is at most the number of rows; it equals it exactly when every row is right and is 0 exactly when none is |
| Metrics.CountCorrectCountsCorrectRows | run_race.single.py:285-287 | the count is the size of the set of row indices whose first-maximum index equals the label |
| Metrics.Accuracy | run_race.single.py:285-287 | raises exactly when some row is empty; otherwise is the number of rows whose first-maximum index equals the label, lies in 0..rows, and reaches rows exactly when every row is right |
| Metrics.CountCorrectAdditive | run_race.single.py:668-671 | counting per batch and adding up equals counting over the concatenated rows |
| Metrics.TwoRowsBothCorrect | run_race.single.py:285-287 | logits [[1,9],[8,2]] with labels [1,0] give 2 |
| Metrics.TieGoesToFirst | run_race.single.py:286 | a row of equal logits is predicted as index 0 |
| Training.RunEpochFrom | run_race.single.py:604-614 | the epoch uses between its start and all of the batches; the global step grows by the number of 1-based batch numbers divisible by the accumulation setting; an epoch that stops early has used at least two batches and stops after batch `global_step` |
| Training.EpochStopsAtFirstBreak | run_race.single.py:694-695 | an epoch that stops early stops at a batch where `step != 0 and global_step == step` holds, and that test held at none of the batches before it |
| Training.RunEpochs | run_race.single.py:571-576 | over all epochs the global step never decreases and grows by at most one per batch |
| Training.Train | run_race.single.py:438-440 | a run raises exactly when the accumulation setting is below 1 |
| Training.TrainWithoutAccumulation | run_race.single.py:604-614 | with accumulation 1, E epochs of N batches take exactly E*N optimizer steps |
| Training.FirstEpochLength | run_race.single.py:694-695 | the first epoch uses every batch, except with accumulation exactly 2, where it stops after the second batch |
| Training.FirstEpochWhole | run_race.single.py:604-614 | with accumulation 3 the first epoch of nine batches runs whole and leaves the global step at 3 |
| Training.SecondEpochCut | run_race.single.py:694-695 | starting from global step 3, the second epoch of nine batches stops after five, at global step 4 |
| Training.TwoEpochsOfNine | run_race.single.py:571-614 | two epochs of nine batches with accumulation 3 make 4 optimizer steps, not 6 |

## Left out

- `main()` orchestration: argument parsing, device and distributed setup, model loading, optimizers, scheduler, progress bars, tensorboard, model saving. These are external frameworks.
- `GradientClipper` and `warmup_linear`: floating-point arithmetic and CUDA calls; `warmup_linear` is used only in the disabled old mode.
- The feature cache (pickle dump and load): file I/O with no logic of its own.
- Directory globbing and JSON parsing in `read_race_examples`: the model takes the parsed documents, with their file names, in the order the file system lists them.
- Reader.ReadDocument: JSON values of the wrong type (an article that is a number, say) are not modelled; each field is either absent or has its expected type.
- The dead `if False:` branch of `convert_examples_to_features`, the `OLD_MODE`/`SIMULATE` flags and the random subsampling of the dev set: unreachable or random.
- The tokenizer: `tokenize` and `toIds` are parameters. Where a length-preserving vocabulary lookup is needed, lemmas require it.
- Metrics.Accuracy: requires as many labels as rows; numpy's broadcasting of mismatched shapes and NaN logits are not modelled. Logits are integers, not floats.
- The evaluation loop's loss averaging and accuracy ratio (`eval_accuracy / nb_eval_examples`): floating point. Only the integer count and its per-batch additivity are modelled.
- Training: the loss, backward pass, optimizer and scheduler steps, and the dev evaluation every 500 steps are not modelled; only the counters are. The per-device batch size division at line 442 is also left out.
