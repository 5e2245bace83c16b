# LegalMaster evaluation script: a Dafny model

This project models the sequential logic of `eval.py`, the script that evaluates
causal language models on the CaseHOLD multiple-choice legal dataset. It covers
three parts of the script:

- **Prompt construction** (`prompt_engineering`). The case context is cut at the
  first `(<HOLDING>)` marker. The candidate endings are numbered `"n: ending"`.
  One of ten instruction templates, the excerpt and the rendered choices are
  joined into the question. The label is passed through unchanged.
- **Shard split** (`run_eval` and `evaluate`). The chunk size is
  `n // num_gpus`. The shards are `xs[i:i+chunk_size]` for `i` in
  `range(0, n, chunk_size)`.
- **Tally** (`calculate_metric`). This is the 7-slot vector
  `[incorrect, correct, label0, ..., label4]`. The model also covers the way
  `evaluate` collects one tally per shard.

Modules:

- `Outcome` (outcome.dfy) holds the Python exceptions the modelled code can
  raise, and Result and Option.
- `PyStr` (pystr.dfy) holds `str.find`, the `in` operator on strings, the
  prefix slice `s[:k]` with negative indices, and `str(n)` with its inverse.
- `Prompt` (prompt.dfy), `Shard` (shard.dfy) and `Metric` (metric.dfy) hold
  the three parts above.

Two behaviours of the code shape the model:

- `range(0, n, chunk_size)` reaches every row. The leftover rows form extra
  shards, so there can be more shards than workers (`Shard.ShardCountVsGpus`).
- `calculate_metric` re-creates its vector on every row; the model keeps that
  (see Findings).

## Model

| member | source | states |
|---|---|---|
| `PyStr.Find` | eval.py:63 | `context.find(marker)` gives the lowest index where the marker occurs, with no earlier occurrence, or -1 when it occurs nowhere |
| `PyStr.PrefixSlice` | eval.py:64 | `s[:k]` is a prefix of `s`; a negative `k` counts from the end, and an index past either end is clamped |
| `PyStr.IntToString` | eval.py:65 | `str(n)` is a non-empty string of decimal digits with no leading zero |
| `PyStr.ParseIntToString` | eval.py:65 | reading back the digits of `str(n)` gives `n` |
| `PyStr.ContainsIff` | eval.py:182 | the string `in` test holds exactly when the pattern occurs at some index |
| `Prompt.Excerpt` | eval.py:63-64 | the excerpt is a prefix of the context and never contains the marker. With the marker present, it is exactly the text before the first marker. With the marker absent, it is the context minus its last character (empty for an empty context) |
| `Prompt.Choices` | eval.py:65 | there is one choice per ending |
| `Prompt.ChoicesRoundTrip` | eval.py:65 | parsing choice `n` gives back the number `n` and ending `n`, so the list keeps the order and contents of the endings |
| `Prompt.Render` | eval.py:67 | the list's text as the f-string shows it opens with `[` and closes with `]`, is `[]` for an empty list, and shows every element, quoted |
| `Prompt.LayoutShows` | eval.py:67 | in a question built from any template `t`, `"\nExcerpt: "` follows `t`, the excerpt follows that heading, `"\nChoices: "` and the rendered choices follow the excerpt and end the text, and every choice appears |
| `Prompt.Question` | eval.py:67 | the question built from template `k` names `k` as the template it opens with, then holds the excerpt heading, the excerpt, the choices heading and the rendered choices in that order with nothing after them, and shows every choice |
| `Prompt.TemplateOf` | eval.py:49-60 | the template index it returns is one that the question opens with; None means no template opens it |
| `Prompt.TemplateRecovered` | eval.py:49-66 | the ten templates differ in their first ten characters, so the template a question opens with can be read back from the question |
| `Prompt.PromptEngineering` | eval.py:69-72 | the returned record keeps the input label |
| `Prompt.PromptEngineeringSpec` | eval.py:47-72 | the result has the input label; its question opens with template `k`, followed by the excerpt heading, the excerpt of the context, the choices heading and the rendered choices, and it lists every numbered ending `"n: ending"` |
| `Shard.FloorDiv` | eval.py:78 | `n // num_gpus` is the floor of the quotient, also for a negative divisor |
| `Shard.Split` | eval.py:78-86 | `num_gpus == 0` raises ZeroDivisionError and a zero chunk size raises ValueError. A negative chunk size gives no shards. A positive chunk size `c` gives shards that, laid end to end, reproduce the input; each has `c` rows except the last, which has 1 to `c` |
| `Shard.ShardingLength` | eval.py:81-86 | the row count is `c` times the number of full shards plus the length of the last shard |
| `Shard.ShardCount` | eval.py:81-86 | the number of shards is `ceil(n / c)`: `(m - 1) * c < n <= m * c` |
| `Shard.ShardAt` | eval.py:81-86 | shard `j` is exactly `xs[j*c : j*c+c]`, clamped at the end of the input, so the shards are in input order and the split is unique |
| `Shard.ShardCountVsGpus` | eval.py:78-86 | with `c = n // g > 0` there are at least `g` shards, and exactly `g` only when `g` divides `n` |
| `Shard.SevenRowsFourShards` | eval.py:78-86 | seven rows split among three workers give four shards, the last of them one row long |
| `Metric.Hit` | eval.py:182 | a row counts 1 exactly when the expected text occurs somewhere in the answer, and 0 otherwise |
| `Metric.Slot` | eval.py:184 | numpy indexing on the 7 slots accepts -7 to 6, with negative indices counting from the end; any other index is an IndexError |
| `Metric.Step` | eval.py:182-184 | one row adds 1 to exactly one of slots 0 and 1 (slot 1 when correct) and 1 to slot `label+2`, so the sum grows by 2. An out-of-range slot is an IndexError |
| `Metric.RowVector` | eval.py:180-184 | a row tallied on a fresh zero vector leaves a vector that sums to 2 |
| `Metric.CalculateMetric` | eval.py:172-186 | the loop with its per-row vector returns `Tally(rows)` |
| `Metric.TallyFailurePersists` | eval.py:174-184 | once a row raises IndexError, the whole shard fails with it |
| `Metric.TallyFails` | eval.py:172-186 | the tally fails exactly when the shard is empty (the vector is never bound) or some row's slot is out of range |
| `Metric.TallyKeepsOnlyLastRow` | eval.py:174-186 | with labels 0 to 4, the tally is the vector of the last row alone: one of slots 0 and 1 holds 1, slot `label+2` of the last row holds 1, and every other slot holds 0 |
| `Metric.TallyUndercounts` | eval.py:180 | a shard of two or more rows has slots 0 and 1 adding up to less than its row count |
| `Metric.AccumulateCounts` | eval.py:172-186 | with the vector created once per shard, slots 0 and 1 add up to the row count, slot 1 counts the correct rows, slot `l+2` counts label `l`, and the slots sum to twice the row count |
| `Metric.AccumulateMetric` | eval.py:172-186 | the loop that creates its vector once returns `Accumulate(rows)` |
| `Metric.AnsweredCountsShards` | eval.py:161-164 | when each collected tally has slots 0 and 1 adding up to 1, slots 0 and 1 summed over all tallies (the intended `metrics[0] + metrics[1]`) give the number of tallies |
| `Metric.CollectMetrics` | eval.py:153-164 | the metric pass splits the rows as `Shard.Split` does, tallies each shard in order, and propagates the first error. With labels 0 to 4, slots 0 and 1 summed over the collected tallies equal the number of shards, not the number of rows |
| `Metric.ShardsAnswerOnce` | eval.py:153-164 | rows whose labels are 0 to 4, tallied shard by shard, give one answer per shard |

## Left out

- Model loading, tokenisation, generation and decoding in `get_model_answers` (eval.py:99-134) are calls into torch and transformers. This includes the `return` inside its loop and the `shortuuid` ids.
- The distributed runtime is left out: `ray.init`, `@ray.remote`, `ray.get` and the collection of answers (eval.py:82-90). Only the index arithmetic of the split is modelled, and the metric pass runs its shards in order.
- Dataset building, caching and I/O are left out: pickle files, `build_dataset`, and the `datasets` shuffle, map, select, add_column and concatenate calls (eval.py:27-45, eval.py:91-95, eval.py:146-150).
- `random.seed` and `random.choice` (eval.py:38, eval.py:66) are replaced by an explicit template index `k < 10`.
- Prompt.Render: Python's list `repr` is simplified to `'[' + "'c0', 'c1'" + ']'`. Python's choice between quote characters and its escaping of special characters are not modelled.
- Metric.CalculateMetric: the source reads whole columns (eval.py:176-178), iterates over the shard object, and tests an integer label `in` a list of answers (eval.py:182). The model instead tallies explicit rows, each with its answer, the text expected in it, and its label; a row is correct when `expected in answer`.
- The accuracy computation is left out (eval.py:166-167). As written, eval.py:166 calls `.sum(axis=0)` on a Python list, which raises AttributeError, and eval.py:167 divides `metrics[1]` by `results[0] + results[1]`, the slot-by-slot sum of the first two tallies (a 7-slot array) rather than the count of answers. The division is floating point. `Metric.Answered` states the intended count instead.
- Command-line parsing, logging and printing are left out (eval.py:169, eval.py:189-214).

## Findings

| source | as written | input that shows it | evidently intended | confidence | as-written member | corrected member |
|---|---|---|---|---|---|---|
| eval.py:180 | The tally vector is re-created inside the per-row loop, so each shard reports only its last row | Any shard of two rows with labels 0 and 1: slots 0 and 1 of its tally add up to 1 instead of 2 | Create the vector once before the loop, so each row adds to it and slots 0 and 1 add up to the shard's row count | high, not executed | `Metric.TallyUndercounts` | `Metric.AccumulateCounts` |

`Metric.CollectMetrics` models `evaluate` as written, so it calls the as-written
`Metric.CalculateMetric`. Its last postcondition shows that the collected
tallies then record one answer per shard rather than one per row.
