# GSM8K reward scoring, data preparation, evaluation and FSDP checkpoint consolidation in Dafny

This project models the core of the Shanwen training repository. It has four parts.

- **Reward scoring** (`src/reward_score/gsm8k.py`).
  - The answer is extracted from the first `<answer>…</answer>` block, then stripped, with commas and dollar signs removed.
  - The answer score is `match_score` when the answer equals the ground truth.
  - Two format checks look for a chain of tagged sections, each followed by optional whitespace: `<think>` then `<answer>` for CoT, and `<what>`, `<how>`, `<why>`, `<meaningful>`, `<answer>` for WHWM.
  - The combined scores add a format weight of 1 to an answer weight of 2.
- **Dataset preparation** (`src/data_preprocess/gsm8k/WHWM_NO_THINK.py`).
  - The ground-truth key is the signed numeral after `#### `, with commas and dollar signs removed.
  - `process_fn` pops `question` and `answer` from the example it receives and builds the training record: the data source, the system instruction, the question marked `/no_think`, a rule-style reward model and the extra info.
- **Offline evaluation** (`src/eval/gsm8k.py`).
  - The same answer extraction as the reward scorer.
  - A loop that counts the rows whose extracted answer equals the stored ground truth.
- **Checkpoint consolidation** (`load_sharded_model` in `src/convert_fsdp_to_hf.py`).
  - Lists `model_world_size_*_rank_*.pt` files and reads the world size from each name the pattern `model_world_size_(\d+)_rank_(\d+)\.pt` matches.
  - Demands exactly one world size, then loads ranks `0 … W-1` in order.
  - Appends every value, made local, to its key's list.
  - Merges each list by concatenation along axis 0, falling back to the first value when concatenation raises.

## Structure

- `wrappers.dfy`: `Option` and `Result`. `None` and `Failure` stand for Python's `None` and for raised exceptions.
- `text.dfy` (`Text`): the pieces of Python's `str` and `re` the sources rely on.
  - `str.find`.
  - Python's whitespace set for `\s` and `str.strip()`.
  - `str.replace(c, "")`.
  - `int()` of ASCII digits and `str()` of a natural number.
- `reward_score.dfy` (`RewardScore`): extraction and scores.
  - The tag-chain search is an executable matcher, proved equivalent to a ghost reference semantics of the regular expression (`PatternAt`/`ClosesAt`/`Matches`).
- `preprocess.dfy` (`Preprocess`): key extraction, record construction, and the mutable `Example` with `ProcessFn`.
- `eval.dfy` (`Eval`): the evaluation loop, proved against a counting function.
- `shard_names.dfy` (`ShardNames`): the glob, the regular-expression parse and the per-rank file name.
- `consolidation.dfy` (`Consolidation`): tensors, merging, gathering, loading, and the loader method.
  - `LoadShardedModel` is proved to return exactly what the reference function `Consolidated` describes.
  - The lemmas about `Consolidated` state what the loader promises.

Tensors are abstract. A `Tensor<E>` is either 0-dimensional, or a sequence of rows along axis 0 that share one trailing shape. `torch.cat` succeeds exactly when the list is non-empty and every part is at least one-dimensional with the same trailing shape.

The directory is a map from entry names to what `torch.load` returns for each one. `None` stands for a load that raises.

Behaviour of `load_sharded_model` worth knowing:
- A replicated parameter whose copies have compatible shapes is **concatenated**, not kept from rank 0. `ReplicatedVectorRepeated` states this. The fallback to the first buffered value happens only when `torch.cat` raises. That value is rank 0's when rank 0 holds the key, and otherwise the value of the lowest rank holding it (`ColumnByRank`). `ScalarKeepsRankZero` covers the 0-dimensional case.
- The world size comes from names the glob lists *and* the pattern matches. A listed name without digits adds no world size (`GlobOnlyNameRejected`).
- The rank files are looked up by their unpadded decimal names. A zero-padded name therefore leads to a missing shard (`PaddedNameMissesRankZero`).
- A rank file that exists but that `torch.load` cannot read raises from `torch.load`; the model reports it as `ShardLoadError` with the file's name.

## Model

| member | source | states |
|---|---|---|
| Text.Find | src/reward_score/gsm8k.py:12 | the result is the first occurrence of the pattern at or after the start; None exactly when there is none |
| Text.RunEnd | src/reward_score/gsm8k.py:40-45 | a greedy run over one character class: every character up to the result is in the class, and the character at the result is not; `\s*`, `[0-9.,]+` and `\d+` are its three instances |
| Text.RunEndUnique | src/reward_score/gsm8k.py:40-45 | a run of the class followed by a character outside it ends exactly at that character, so the greedy end is the only one |
| Text.SkipSpace | src/reward_score/gsm8k.py:40-45 | `\s*` as `RunEnd` over Python's whitespace set |
| Text.Strip | src/reward_score/gsm8k.py:14 | `strip()` returns a slice of the input with only whitespace cut from both ends, and it neither starts nor ends with whitespace |
| Text.Remove | src/reward_score/gsm8k.py:14 | `replace(c, "")` keeps exactly the characters other than `c` and never lengthens the string |
| Text.RemoveAppend | src/data_preprocess/gsm8k/WHWM_NO_THINK.py:31 | deleting a character distributes over concatenation, so the order of the remaining characters is kept |
| Text.NatToDecimal | src/convert_fsdp_to_hf.py:34 | the decimal rendering is non-empty, all digits, and starts with '0' only for zero |
| Text.DecimalValue | src/convert_fsdp_to_hf.py:23 | `int()` of a string of ASCII digits, read front to back in base 10; `DecimalRoundTrip` proves it inverts `NatToDecimal` |
| Text.DecimalRoundTrip | src/convert_fsdp_to_hf.py:23 | `int(str(n)) == n` |
| Text.NatToDecimalInjective | src/convert_fsdp_to_hf.py:34 | distinct numbers have distinct renderings |
| RewardScore.CleanAnswer | src/reward_score/gsm8k.py:14 | the cleaned answer contains no ',' and no '$' |
| RewardScore.ExtractSolution | src/reward_score/gsm8k.py:4-14 | None exactly when no `<answer>` is followed by a `</answer>`; an extracted answer has no ',' or '$' |
| RewardScore.ExtractSolutionSpan | src/reward_score/gsm8k.py:12-14 | the answer is the cleaned text between the leftmost closed `<answer>` and the first `</answer>` after it |
| RewardScore.ScoreAnswer | src/reward_score/gsm8k.py:17-28 | the score is the match score or 0; for a non-zero match score, it is the match score exactly when an answer is extracted and equals the ground truth |
| RewardScore.PatternAt | src/reward_score/gsm8k.py:40-45 | reference semantics of the tag chain at a position: each tag's opening text, some body, the first closing text after it (lazy `.*?` with DOTALL), then any whitespace; `MatchAtCorrect` relates it to `MatchAt` |
| RewardScore.MatchAt | src/reward_score/gsm8k.py:40-45 | the executable matcher at one start position, scanning for each closing tag and skipping the maximal whitespace run; `MatchAtCorrect` proves it equal to `PatternAt` |
| RewardScore.SearchFrom | src/reward_score/gsm8k.py:75-83 | `re.search` as a scan of every start position from k on; `SearchCorrect` proves it true exactly when the pattern matches at some position |
| RewardScore.CloseHereCorrect | src/reward_score/gsm8k.py:40-45 | the matcher closes a section at a position exactly when the reference semantics does |
| RewardScore.MatchAtCorrect | src/reward_score/gsm8k.py:40-45 | the matcher accepts the tag chain at a position exactly when the reference semantics of the pattern matches there |
| RewardScore.SearchCorrect | src/reward_score/gsm8k.py:75-83 | scanning every start position finds the chain exactly when the pattern matches somewhere |
| RewardScore.FormatMatches | src/reward_score/gsm8k.py:40-45 | the executable format check is true exactly when `re.search` finds the chain |
| RewardScore.ScoreCoTFormat | src/reward_score/gsm8k.py:31-46 | the match score when `<think>…</think>\s*<answer>…</answer>` occurs, otherwise 0 |
| RewardScore.CoTFormatLayout | src/reward_score/gsm8k.py:40-45 | the CoT chain occurs exactly when there are positions of `<think>`, `</think>`, whitespace, `<answer>` and `</answer>` in that order |
| RewardScore.ScoreWHWMFormat | src/reward_score/gsm8k.py:66-84 | the match score when the what/how/why/meaningful/answer chain occurs, otherwise 0 |
| RewardScore.CoTScore | src/reward_score/gsm8k.py:49-63 | 1 for the format plus 2 for a correct answer; always one of 0, 1, 2, 3 |
| RewardScore.WHWMScore | src/reward_score/gsm8k.py:87-101 | 1 for the WHWM format plus 2 for a correct answer; always one of 0, 1, 2, 3 |
| Preprocess.KeyAt | src/data_preprocess/gsm8k/WHWM_NO_THINK.py:28 | the pattern `#### (\-?[0-9\.\,]+)` can start at k: the marker, then a key character, or '-' and a key character; `FindKey` and `ExtractSolutionSpec` use it for the leftmost match |
| Preprocess.FindKey | src/data_preprocess/gsm8k/WHWM_NO_THINK.py:28 | the leftmost position where `#### ` is followed by an optional '-' and a digit, '.' or ','; None when there is none |
| Preprocess.KeyRunEnd | src/data_preprocess/gsm8k/WHWM_NO_THINK.py:28 | the greedy `[0-9.,]+` as `RunEnd` over the key characters |
| Preprocess.ExtractSolution | src/data_preprocess/gsm8k/WHWM_NO_THINK.py:27-32 | None (the failed assertion) exactly when the pattern does not match; otherwise a signed numeral without ',' |
| Preprocess.CleanSignedRun | src/data_preprocess/gsm8k/WHWM_NO_THINK.py:31 | removing ',' then '$' from sign + run keeps the sign and drops only the commas |
| Preprocess.ExtractSolutionAtMatch | src/data_preprocess/gsm8k/WHWM_NO_THINK.py:28-31 | at the match the search reports, the key is the sign and the run after it with the commas and dollars deleted |
| Preprocess.ExtractSolutionSpec | src/data_preprocess/gsm8k/WHWM_NO_THINK.py:28-31 | the key is the sign and the maximal run at the leftmost match, with the commas deleted |
| Preprocess.EmptyKey | src/data_preprocess/gsm8k/WHWM_NO_THINK.py:28-31 | `"#### ,"` matches and yields the empty key |
| Preprocess.NegativeKeyWithSeparator | src/data_preprocess/gsm8k/WHWM_NO_THINK.py:28-31 | `"x #### -1,5"` yields `"-15"` |
| Preprocess.BuildRecord | src/data_preprocess/gsm8k/WHWM_NO_THINK.py:67-89 | no record exactly when the answer has no key; a record is well formed (source, instruction, question + " /no_think", "math", rule reward whose ground truth is the answer's key) and carries its inputs back |
| Preprocess.UserMessageGivesQuestion | src/data_preprocess/gsm8k/WHWM_NO_THINK.py:76-79 | the user message of a record ends in " /no_think" and dropping that suffix gives the stored question |
| Preprocess.Example.Pop | src/data_preprocess/gsm8k/WHWM_NO_THINK.py:64-65 | `dict.pop`: returns the value and removes the key, or reports a missing key and changes nothing |
| Preprocess.ProcessFn | src/data_preprocess/gsm8k/WHWM_NO_THINK.py:63-90 | KeyError("question") with the example unchanged, or KeyError("answer") with only the question removed, or both removed and the outcome of BuildRecord |
| Eval.ExtractSolution | src/eval/gsm8k.py:11-21 | equals the reward scorer's extraction on every input |
| Eval.CorrectRows | src/eval/gsm8k.py:35-39 | the number of rows whose extracted answer equals the row's ground truth, counted front to back; `CorrectRowsCountsIndices` and `CorrectRowsBounds` state what it counts and bound it, and `Evaluate` returns it |
| Eval.CountWhereIndices | src/eval/gsm8k.py:35-39 | counting front to back gives the number of positions that satisfy the test |
| Eval.CorrectRowsCountsIndices | src/eval/gsm8k.py:35-39 | the correct count is the number of rows whose extracted answer equals their ground truth |
| Eval.CorrectRowsBounds | src/eval/gsm8k.py:32-39 | only rows with an answer block are counted, so the count is at most the number of rows |
| Eval.Evaluate | src/eval/gsm8k.py:32-39 | the loop returns the number of rows and the number of correct rows, and the latter never exceeds the former |
| ShardNames.GlobMatch | src/convert_fsdp_to_hf.py:12 | the glob `model_world_size_*_rank_*.pt` as a scan: fixed prefix and suffix with `_rank_` between; `GlobMatchCorrect` proves it accepts exactly the names of that shape |
| ShardNames.GlobMatchCorrect | src/convert_fsdp_to_hf.py:12 | the scan accepts a name exactly when it is `model_world_size_<x>_rank_<y>.pt` for some texts x and y |
| ShardNames.DigitRunEnd | src/convert_fsdp_to_hf.py:18 | the greedy `\d+` as `RunEnd` over the ASCII digits |
| ShardNames.DigitRunEndAt | src/convert_fsdp_to_hf.py:18 | a digit run followed by a non-digit ends where the greedy `\d+` stops |
| ShardNames.ParseShardName | src/convert_fsdp_to_hf.py:18-23 | `pattern.match` (anchored at the start only) followed by `int()` of both groups; `ParseRegexMatch`, `ParseShardNameSound` and `ParseShardNameCorrect` tie it to the pattern's matches |
| ShardNames.ParseAt | src/convert_fsdp_to_hf.py:18-23 | two digit runs between the prefix, `_rank_` and `.pt` are parsed into their `int()` values |
| ShardNames.ParsedParts | src/convert_fsdp_to_hf.py:18-23 | a successful parse found the prefix, a digit run, `_rank_`, a digit run and `.pt`, and returns the `int()` of the two runs |
| ShardNames.ParseRegexMatch | src/convert_fsdp_to_hf.py:18-23 | whenever the pattern matches at the start of a name, the parse returns the int() of both groups |
| ShardNames.ParseShardNameSound | src/convert_fsdp_to_hf.py:18-23 | every parse comes from a match of the pattern at the start of the name |
| ShardNames.ParseShardNameCorrect | src/convert_fsdp_to_hf.py:21-22 | the parse fails exactly when the pattern does not match |
| ShardNames.ShardFileName | src/convert_fsdp_to_hf.py:34 | the f-string name of one rank's file; `ShardFileNameRoundTrip` and `ShardFileNameInjective` prove it is listed, parses back and names one rank only |
| ShardNames.ShardFileNameRoundTrip | src/convert_fsdp_to_hf.py:34 | the file name written for (W, r) is listed by the glob and parses back to (W, r) |
| ShardNames.ShardFileNameInjective | src/convert_fsdp_to_hf.py:34 | different (W, r) name different files |
| ShardNames.TrailingTextParses | src/convert_fsdp_to_hf.py:18-21 | the match is anchored only at the start: any text after ".pt" still parses |
| ShardNames.GlobWithoutDigits | src/convert_fsdp_to_hf.py:12-23 | `model_world_size_a_rank_0.pt` is listed but not parsed |
| ShardNames.LeadingZerosRenamed | src/convert_fsdp_to_hf.py:23-34 | the padded name parses to (2, 0), whose rank-0 file has the unpadded name |
| Consolidation.Lengths | src/convert_fsdp_to_hf.py:49 | one axis-0 length per part, in order |
| Consolidation.Rows | src/convert_fsdp_to_hf.py:49 | the concatenated rows number the sum of the parts' lengths |
| Consolidation.SplitRows | src/convert_fsdp_to_hf.py:49 | splitting the concatenation at the parts' lengths gives back each part, in order |
| Consolidation.TryCat | src/convert_fsdp_to_hf.py:48-50 | `torch.cat` succeeds exactly when the list is non-empty, at least one-dimensional and of one trailing shape |
| Consolidation.Merge | src/convert_fsdp_to_hf.py:47-54 | a concatenable list gives a tensor of the same trailing shape that splits back into the parts; otherwise the first value |
| Consolidation.ToLocal | src/convert_fsdp_to_hf.py:42-43 | a distributed value is replaced by its local piece, a plain one is kept; the local piece is an input of the model (see Left out) |
| Consolidation.AppendShard | src/convert_fsdp_to_hf.py:41-44 | the keys after appending a shard are the old keys and the shard's keys |
| Consolidation.Buffered | src/convert_fsdp_to_hf.py:41-44 | the `defaultdict(list)` after appending the shards one after another; `BufferedByKey` proves its keys are the union and each list is `Column` |
| Consolidation.Column | src/convert_fsdp_to_hf.py:41-44 | one key's local values over the shards that hold it, in rank order; `ColumnByRank` and `ColumnNonEmpty` state its entries and that it is non-empty for a gathered key |
| Consolidation.UnionKeys | src/convert_fsdp_to_hf.py:41-44 | a key is gathered exactly when some shard holds it |
| Consolidation.Holders | src/convert_fsdp_to_hf.py:33-44 | the ranks holding a key, strictly increasing, each holding the key, none missing |
| Consolidation.ColumnByRank | src/convert_fsdp_to_hf.py:33-44 | the j-th gathered value of a key is the local value of the j-th rank holding it, so the list is in rank order |
| Consolidation.BufferedByKey | src/convert_fsdp_to_hf.py:41-44 | the gathered buffer has the union of the shards' keys, and each key's list is its values in rank order |
| Consolidation.ColumnNonEmpty | src/convert_fsdp_to_hf.py:41-51 | every gathered key has at least one value, so the fallback `[0]` never fails |
| Consolidation.MergeAll | src/convert_fsdp_to_hf.py:46-54 | the consolidated dict has exactly the buffer's keys |
| Consolidation.ShardFiles | src/convert_fsdp_to_hf.py:12 | the entries the glob lists; `ShardFilesInsert` and `UnlistedEntryIgnored` state what it admits and that the rest is never read |
| Consolidation.WorldSizes | src/convert_fsdp_to_hf.py:19-23 | the set of world sizes read from the listed names the pattern matches; `CollectWorldSizes` computes it and `WorldSizesAdd` gives its growth by one name |
| Consolidation.WorldSizesAdd | src/convert_fsdp_to_hf.py:19-23 | one more listed name adds its parsed world size, or nothing when the pattern does not match |
| Consolidation.OnlyElement | src/convert_fsdp_to_hf.py:30 | `pop()` on a one-element set gives its element |
| Consolidation.LoadRanks | src/convert_fsdp_to_hf.py:33-39 | loading ranks 0 to n-1 in order, failing at the first missing or unreadable file; `LoadRanksAll`, `LoadRanksSuccess`, `LoadRanksFirstGap` and `LoadRanksFrame` state its outcome |
| Consolidation.LoadRanksFailureSticks | src/convert_fsdp_to_hf.py:33-39 | once a rank fails, loading further ranks reports the same failure |
| Consolidation.LoadRanksAll | src/convert_fsdp_to_hf.py:33-39 | when every rank below n loads, the result is the n shards in rank order |
| Consolidation.LoadRanksSuccess | src/convert_fsdp_to_hf.py:33-39 | a successful load means every rank below n was present and readable |
| Consolidation.LoadRanksFirstGap | src/convert_fsdp_to_hf.py:33-36 | the failure reported is that of the lowest rank that cannot be loaded |
| Consolidation.LoadRanksFrame | src/convert_fsdp_to_hf.py:33-39 | loading depends only on the entries named for the ranks below n |
| Consolidation.CollectWorldSizes | src/convert_fsdp_to_hf.py:19-23 | the loop collects the world size of every listed name the pattern matches |
| Consolidation.AppendShardValues | src/convert_fsdp_to_hf.py:41-44 | the loop over a shard's items ends with each value, made local, appended to its key's list |
| Consolidation.MergeBuffer | src/convert_fsdp_to_hf.py:46-54 | the final loop builds the merge of every key's list |
| Consolidation.GatherRanks | src/convert_fsdp_to_hf.py:33-44 | the rank loop stops at the first rank whose file is missing or fails to load, and otherwise buffers every rank's values per key in rank order (`Gathered`) |
| Consolidation.ConsolidatedFromGathered | src/convert_fsdp_to_hf.py:33-44 | a failed gather is the loader's outcome, and a successful one buffers a non-empty list under every key |
| Consolidation.LoadShardedModel | src/convert_fsdp_to_hf.py:8-56 | the loader returns or raises exactly what `Consolidated` describes |
| Consolidation.Consolidated | src/convert_fsdp_to_hf.py:8-56 | reference definition of the loader's outcome: NoShardsFound, InconsistentWorldSize, the first rank error, or the merged buffer; `LoadShardedModel` is proved equal to it and the lemmas below state its promises |
| Consolidation.ConsolidatedRankFailure | src/convert_fsdp_to_hf.py:33-39 | with one world size, a failed rank decides the outcome |
| Consolidation.ConsolidatedFromShards | src/convert_fsdp_to_hf.py:33-56 | with one world size and all ranks loaded, the result merges the gathered shards |
| Consolidation.ConsolidatedChecksNames | src/convert_fsdp_to_hf.py:12-28 | no listed file gives NoShardsFound; anything but one world size gives InconsistentWorldSize with the sizes found; success implies one world size |
| Consolidation.FirstGapReported | src/convert_fsdp_to_hf.py:33-36 | the lowest rank that is missing or unreadable is the one reported |
| Consolidation.SuccessLoadsEveryRank | src/convert_fsdp_to_hf.py:25-39 | a success means one world size W and a readable file for every rank below W |
| Consolidation.ConsolidatedSucceeds | src/convert_fsdp_to_hf.py:33-56 | when every rank loads, the result has exactly the shards' keys, and each value merges that key's values in rank order |
| Consolidation.ShardFilesInsert | src/convert_fsdp_to_hf.py:12 | an added entry is listed exactly when the glob matches its name |
| Consolidation.UnlistedEntryIgnored | src/convert_fsdp_to_hf.py:12 | entries the glob does not list never change the outcome |
| Consolidation.HighRankIgnored | src/convert_fsdp_to_hf.py:33-34 | a file for a rank at or above the world size is never opened and never changes the outcome |
| Consolidation.ZeroWorldSizeIsEmpty | src/convert_fsdp_to_hf.py:30-56 | for every directory whose only world size is 0, the rank loop is empty and the result is the empty dict |
| Consolidation.ZeroWorldSizeSkipsUnreadable | src/convert_fsdp_to_hf.py:30-39 | a directory holding only an unreadable rank-0 file of world size 0 still returns the empty dict, since no file is opened |
| Consolidation.GlobOnlyNameRejected | src/convert_fsdp_to_hf.py:12-28 | a listed name without digits gives InconsistentWorldSize with no sizes |
| Consolidation.PaddedNameMissesRankZero | src/convert_fsdp_to_hf.py:18-36 | a lone `model_world_size_02_rank_00.pt` gives MissingShard(0) |
| Consolidation.GapAtRankOne | src/convert_fsdp_to_hf.py:33-36 | any directory holding exactly the files of ranks 0 and 2 of a world size above 2, rank 0 loadable, fails with rank 1 missing |
| Consolidation.MiddleRankMissing | src/convert_fsdp_to_hf.py:33-36 | ranks 0 and 2 of any world size above 2: rank 1 is reported missing |
| Consolidation.LoadRanksTwo | src/convert_fsdp_to_hf.py:33-44 | when the files of ranks 0 and 1 load, the first two ranks load as those two shards in rank order |
| Consolidation.TwoRanksLoaded | src/convert_fsdp_to_hf.py:33-56 | a world-size-2 directory with both ranks returns the merge of rank 0's and rank 1's shards |
| Consolidation.ColumnOfEveryRank | src/convert_fsdp_to_hf.py:41-44 | a key every rank holds gathers one local value per rank, in rank order |
| Consolidation.ShardedParameterConcatenated | src/convert_fsdp_to_hf.py:46-49 | a parameter every rank holds as compatible pieces is merged into a tensor that splits back into rank 0's piece, rank 1's piece, … |
| Consolidation.ScalarKeepsRankZero | src/convert_fsdp_to_hf.py:48-51 | a parameter rank 0 holds as a 0-dimensional value merges to rank 0's value |
| Consolidation.Repeat | src/convert_fsdp_to_hf.py:49 | n copies of a row sequence have n times its length |
| Consolidation.ReplicatedVectorRepeated | src/convert_fsdp_to_hf.py:46-51 | a vector every rank holds identically is concatenated world-size times, not deduplicated |

## Left out

- File-system access, `Path.glob`, `Path.exists` and `torch.load` are foreign calls. The directory is a parameter: a map from entry names to the loaded shard, or None when loading raises.
- `Consolidation.LoadShardedModel` does not model a listed entry that is a directory. Such an entry counts as a name like any other.
- The `print` diagnostics in `load_sharded_model` and the accuracy line of the evaluation script are not modelled, and neither is that line's division by zero on an empty dataset.
- `ShardNames.DigitRunEnd`: `\d` is modelled as the ASCII digits. Python's `\d` on `str` patterns also accepts other Unicode decimal digits, and `int()` reads them.
- `Consolidation.TryCat`: only the shape rule of `torch.cat` is modelled. Dtype promotion, devices, and the legacy acceptance of empty one-dimensional tensors are left out. Values that are not tensors behave like 0-dimensional tensors, since `torch.cat` raises TypeError on them.
- `Consolidation.ToLocal`: a distributed tensor's `to_local()` is an input (the local tensor it returns), not computed.
- `Consolidation.MergeBuffer`: a Python dict's insertion order is not modelled, because the state dicts are maps. The result does not depend on that order.
- `convert_fsdp_to_hf` (lines 59-81 of `src/convert_fsdp_to_hf.py`) and the `__main__` block (lines 84-101) are not part of this model. Apart from calling `load_sharded_model`, they only call `transformers`, `argparse` and `print`.
- `Preprocess.ProcessFn`: how `datasets.map` merges the returned record with the remaining columns, and the `argparse`, parquet and HDFS steps, are not modelled.
- `Preprocess.Example`: column values are strings. The dataset's columns are strings, and non-string values are not modelled.
- `RewardScore.ScoreAnswer`: scores are exact reals. Floating-point rounding does not arise for the weights 0, 1, 2 and 3.
- `RewardScore.CoTScore`, `RewardScore.WHWMScore`: `data_source` and `extra_info` are accepted and ignored, as in the source.
