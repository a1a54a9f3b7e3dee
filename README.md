# DMR track pipeline (methylKit), modelled in Dafny

This project models the three data-transform tasks of a workflow that turns per-sample
methylation calls into a differentially-methylated-region (DMR) track for the IGV genome browser:

1. **Formatter** (`format_bed_files`). Each sample's bedMethyl table (bed9+2: nine BED columns,
   then read coverage and percent methylated) becomes a 12-column table. The first ten columns
   are copied. Two columns are added: the methylated read count
   `round(percent * 0.01 * coverage)`, and the methylated fraction `percent * 0.01`. Missing
   values become 0. The stage returns one `ProcessedBED` per sample, in order, each with its local
   and remote file path.
2. **Invoker** (`methyl_task`). It joins the sample names, paths and treatment flags into three
   aligned comma-separated strings. It then space-joins the fixed argument list for the methylKit
   R script and returns the script's output directory.
3. **Track builder** (`create_track`, `interpolate_color`). It picks the last listed file whose
   path contains `DMR_regions.csv` and relabels its seven columns by position. It min-max
   normalises the p-values, with a degenerate branch when they are all equal, and colours each
   region from `"255,0,0"` (smallest p-value) to `"0,0,255"` (largest). Each region becomes a
   9-field BED row, and a `track name=...` header line goes on top.

Files: `common.dfy` (results, table cells, file handles), `text.dfy` (join, split, substring,
decimal integers), `numbers.dfy` (Python `int()` truncation, numpy half-to-even rounding),
`formatter.dfy`, `invoker.dfy` and `track_builder.dfy` (one module per stage).

Modelling choices:
- **Types.** Numbers are exact reals. A table cell is `Na` (pandas NaN), `Text` or `Num`. Rows
  are fixed-arity datatypes (`CanonicalRow`, `DmrRow`, `TrackRow`).
- **Parameters standing in for the outside world.** Files arrive already parsed. Writing text
  from a number (Python `str` on a float, pandas `to_csv`) is a parameter `render`. The working
  directory that `Path.resolve()` uses is a parameter `workDir`. The exit status of the R script
  is a parameter `exitStatus`. The results directory's listing is a sequence of paths in
  iteration order, and the contents of its files are a map from path to table.
- **Per-sample loops.** In `format_bed_files`, `methyl_task` and the results-file search, these
  are methods with loop invariants. The tabular column arithmetic is made of functions with
  lemmas.
- **Failures.** Where the Python code raises, the model returns a `Failure`. Its error kinds
  describe the situation (an empty file, too few columns, text in a numeric column, no results
  file, a wrong column count, `int()` of NaN). The code itself defines no error classes.

Notes on the source's behaviour:
- **Colour channels.** `int()` truncates the colour channels (`wf/task.py:147-148`), so 0.5
  gives `"127,0,127"`.
- **Remote results directory.** The script's output goes to the local directory
  `<track>/methylkit` (`wf/task.py:114`). That directory is mapped to the remote location
  `<remote>/<track>/methylkit_results` (`wf/task.py:139-142`).
- **NaN p-values.** When all numeric p-values are equal, every row is normalised to 1, so a row
  without a p-value is coloured `"0,0,255"` as well. Otherwise its normalised value is NaN, and
  `int()` raises on it (`wf/task.py:177-184`).
- **Shell parsing.** The command line is handed to `sh` unquoted (`shell=True`,
  `wf/task.py:119-137`). With no samples, the names, paths and treatments arguments are empty,
  and `sh` drops them, so the command line has eight words and the script six arguments
  (`Invoker.EmptyManifestCommand`). A track name with a space splits the output directory in
  two. The command line then has twelve words and the script ten arguments, and each argument
  after the directory moves one place (`Invoker.SpacedTrackNameShiftsArguments`).
- **Empty or absolute track names.** `Path.resolve()` keeps an absolute path as it is. An empty
  track name makes `/processed_beds`, `/methylkit` and `/IGV_tracks` absolute, so the outputs go
  under the root and not under the working directory (`Formatter.EmptyTrackNameBedPath`); a
  track name starting with `/` does the same. The workflow does not check the track name.

## Model

| member | source | states |
|---|---|---|
| Formatter.FormatRow | wf/task.py:47-52 | the row has 12 columns: columns 0-9 as given with NaN replaced by 0, then `round_half_even(coverage * percent / 100)` (0 when either is missing), then `percent / 100` (0 when missing) |
| Formatter.FormatRows | wf/task.py:47-52 | the transform keeps the number and the order of rows, each row transformed on its own |
| Formatter.FormatTable | wf/task.py:46-52 | an empty table fails as empty; a table narrower than 11 columns fails with its width; text in column 10 is reported before text in column 9; a success keeps the row count |
| Formatter.FormatTableSpec | wf/task.py:46-52 | a table is reformatted exactly when it is non-empty, at least 11 columns wide, and has no text in columns 9 and 10; the result then keeps row count and order |
| Formatter.MethylatedCountBounded | wf/task.py:47-50 | for a whole coverage and a percentage in 0..100, the count lies in 0..coverage and the fraction in 0..1 |
| Formatter.HalfMethylatedRow | wf/task.py:47-49 | coverage 10 with 50 percent gives count 5 and fraction 0.5 |
| Common.ResolveAppend | wf/task.py:37-38 | resolving a path and then appending text gives the same as resolving the longer path, when the path is non-empty or the text does not start with `/` |
| Formatter.EmptyTrackNameBedPath | wf/task.py:37-38 | with an empty track name, a sample's file is `/processed_beds/<name>.bed`, outside the working directory |
| Formatter.RelativeBedPath | wf/task.py:37-59 | with a non-empty track name not starting with `/`, a sample's file is `<workDir>/<track>/processed_beds/<name>.bed` |
| Formatter.BedPathsDistinct | wf/task.py:59-67 | samples with different names get different local and remote file paths |
| Formatter.FormatBedFiles | wf/task.py:32-81 | one ProcessedBED per sample in input order, with name and treatment copied and the paths `<track>/processed_beds` resolved against the working directory, then `/<name>.bed`, and `<remote>/<track>/processed_beds/<name>.bed`; each table is written to its local path; the first failing sample stops the run with that sample's error, after the writes of the samples before it |
| Numbers.RoundHalfEven | wf/task.py:49 | the result is within 1/2 of the value, and it is even when the value is exactly halfway |
| Numbers.RoundHalfEvenUnique | wf/task.py:49 | those two properties determine the rounded value |
| Numbers.RoundHalfEvenWithin | wf/task.py:49 | rounding a value between two integers stays between them |
| Numbers.Trunc | wf/task.py:147-148 | `int()` truncates toward zero: a non-negative value goes down to the integer at or below it, a negative one up to the integer at or above it |
| Numbers.TruncMonotone | wf/task.py:147-148 | truncation never reverses the order of two values |
| Text.IntToString | wf/task.py:127-130 | `str` of an integer is non-empty, starts with `-` exactly when the integer is negative, and is otherwise made of digits |
| Text.ParseIntToString | wf/task.py:127-130 | the decimal text of an integer reads back as that integer |
| Text.Join | wf/task.py:109-111 | `sep.join`; its properties are stated by `Text.SplitJoin` and `Text.JoinAvoids` |
| Text.SplitJoin | wf/task.py:109-111 | splitting a join on its one-character separator gives the parts back, when no part holds the separator |
| Text.JoinAvoids | wf/task.py:109-111 | a join holds a character only when the separator or a part does |
| Text.ContainsAt | wf/task.py:167 | the `in` test on strings holds exactly when the marker occurs at some position of the path |
| Invoker.Names | wf/task.py:100-101 | one name per sample, in input order |
| Invoker.Paths | wf/task.py:100-102 | one local path per sample, in input order |
| Invoker.Flags | wf/task.py:100-106 | one flag per sample, in input order: 1 for a treated sample and 0 otherwise |
| Invoker.Labels | wf/task.py:111 | each flag written as its decimal text |
| Invoker.Arguments | wf/task.py:121-133 | the eleven positional arguments in their fixed order; `Invoker.CommandArguments` states how `sh` reads them back |
| Invoker.Command | wf/task.py:108-133 | the command line built from the manifest; `Invoker.ManifestCommandWords` states how `sh` reads it back |
| Invoker.MethylTask | wf/task.py:84-142 | the command is the space-join of `Rscript`, `methylkit_task.R`, the names, paths and output-directory strings, the four integer settings, the q-value text and the treatments string; the result is the directory `<track>/methylkit` resolved against the working directory, mapped to `<remote>/<track>/methylkit_results`, or a failure when the script exits non-zero |
| Invoker.ManifestAligned | wf/task.py:100-111 | when there is a sample and no name or path holds a comma: split on commas, the names, paths and treatments strings each have one entry per sample, aligned 1:1 in input order, the treatment entry being "1" or "0" |
| Invoker.WordsOfJoin | wf/task.py:119-137 | `sh` reads a space-join of parts without blanks as its non-empty parts, in order |
| Invoker.CommandArguments | wf/task.py:119-137 | `sh` reads the command line as the eleven arguments in their fixed order, when each variable argument is a non-empty word of plain characters |
| Invoker.TreatmentsArePlain | wf/task.py:111 | the treatments string is made of plain characters, and is a non-empty word when there is a sample |
| Invoker.ManifestCommandWords | wf/task.py:100-137 | for at least one sample, with plain names, paths, working directory, track name and q-value text, `sh` reads the command `MethylTask` builds as its eleven arguments: the joined names, the joined paths, the output directory, the four settings, the q-value and the treatments |
| Invoker.EmptyManifestCommand | wf/task.py:100-137 | with no samples, `sh` drops the three empty arguments, and the command line has eight words: the program, the script, the output directory, the four settings and the q-value |
| Invoker.SpacedTrackNameShiftsArguments | wf/task.py:113-137 | a track name with one space makes `sh` read twelve words on the command line; the output directory's two halves (the first half resolved against the working directory) take positions 4 and 5, and the base coverage moves to position 6 |
| TrackBuilder.LastMatchSpec | wf/task.py:164-168 | the chosen path is "" exactly when no listed path contains `DMR_regions.csv`; otherwise it is a listed path that contains it, and no later path does |
| TrackBuilder.SelectResultsFile | wf/task.py:164-168 | the loop ends holding the last matching path, or "" |
| TrackBuilder.Relabel | wf/task.py:172 | each seven-cell row becomes chr, start, end, strand, pvalue, qvalue, meth.diff by position; row count and order are kept |
| TrackBuilder.SevenColumnsRequired | wf/task.py:172 | relabelling fails exactly when the table is not seven columns wide; otherwise pvalue is the fifth column |
| TrackBuilder.PValues | wf/task.py:174-175 | every numeric p-value of the table is among the values min and max range over |
| TrackBuilder.PValueSource | wf/task.py:174-175 | every value they range over is the p-value of some row |
| TrackBuilder.MinOf | wf/task.py:174 | the minimum is one of the values and no value is below it |
| TrackBuilder.MaxOf | wf/task.py:175 | the maximum is one of the values and no value is above it |
| TrackBuilder.Normalized | wf/task.py:177-181 | one normalised value per row; its branches are stated by `TrackBuilder.DegenerateExactly` and `TrackBuilder.NormalizedScaled` |
| TrackBuilder.ScaleProperties | wf/task.py:181 | min-max scaling maps [min, max] into [0, 1], is 0 exactly at the minimum and 1 exactly at the maximum, and keeps the order of p-values in both directions |
| TrackBuilder.DegenerateExactly | wf/task.py:177-181 | the all-equal branch is taken exactly when there is a numeric p-value and all numeric p-values are equal |
| TrackBuilder.NormalizedScaled | wf/task.py:177-181 | outside that branch, a row's normalised value is its scaled p-value, in [0, 1], 0 exactly at the minimum and 1 exactly at the maximum; a row without a p-value is NaN |
| TrackBuilder.InterpolateColor | wf/task.py:145-149 | the colour text is made of digits, minus signs and commas; its channels are stated by `TrackBuilder.ColorChannels` |
| TrackBuilder.ColorChannels | wf/task.py:145-149 | the colour has three comma-separated channels that read back as R, 0 and B |
| TrackBuilder.ColorRange | wf/task.py:147-148 | for a value in [0, 1], R and B lie in 0..255 and R + B is 254 or 255 |
| TrackBuilder.ColorEndpoints | wf/task.py:145-149 | 0 gives "255,0,0" and 1 gives "0,0,255" |
| TrackBuilder.ColorMonotone | wf/task.py:147-148 | a larger value never has more red and never has less blue |
| TrackBuilder.TrackRowsOf | wf/task.py:174-193 | one track row per results row on success; a text p-value fails exactly as `NonNumericPValue`, and the only other failure is `int()` of NaN |
| TrackBuilder.TrackRows | wf/task.py:172-193 | a success means the table has seven columns and one track row per results row |
| TrackBuilder.BuildTrack | wf/task.py:172-203 | the track text exists exactly when the track rows do, and otherwise carries their error |
| TrackBuilder.ProjectAll | wf/task.py:185-193 | one track row per results row, in order, each the projection of its row with the colour of its normalised value |
| TrackBuilder.SucceedsWhenAllEqual | wf/task.py:178-179 | without text p-values, the all-equal case normalises every row to 1 and yields the track rows |
| TrackBuilder.SucceedsWhenAllNumeric | wf/task.py:180-184 | when every p-value is numeric, the track rows exist |
| TrackBuilder.FailsOnMissingPValue | wf/task.py:180-184 | outside the all-equal case, a row without a p-value makes the colouring fail |
| TrackBuilder.TrackRowsSucceed | wf/task.py:174-193 | the track rows exist exactly when no p-value is text and either all are numeric or all numeric ones are equal |
| TrackBuilder.TrackRowsLayout | wf/task.py:184-193 | each track row holds chr, start and end, the q-value text as name, score 0, strand ".", start and end again, and the colour of its normalised p-value; row count and order kept |
| TrackBuilder.DegenerateAllBlue | wf/task.py:177-184 | when all numeric p-values are equal, every row is "0,0,255" |
| TrackBuilder.ColorsFollowPValues | wf/task.py:177-184 | outside the all-equal case, a row with a smaller p-value has no less red, no more blue, and green 0 |
| TrackBuilder.ExtremeRowColors | wf/task.py:146-184 | outside the all-equal case, the row with the smallest p-value is "255,0,0" and the row with the largest is "0,0,255" |
| TrackBuilder.ColorNoBreak | wf/task.py:145-149 | a colour string holds no tab or newline |
| TrackBuilder.LineFields | wf/task.py:193-195 | split on tabs, a written track row gives back its nine fields |
| TrackBuilder.BodyLines | wf/task.py:195 | split on newlines, the table text is one line per row plus the empty piece after the final newline |
| TrackBuilder.HeaderLine | wf/task.py:196-203 | the `track name=` line; `TrackBuilder.HeaderNoNewline` states it is one line |
| TrackBuilder.Body | wf/task.py:194-195 | the rows as `to_csv` writes them; `TrackBuilder.BodyLines` states the line structure |
| TrackBuilder.TrackFile | wf/task.py:194-203 | the header line, then the rows; `TrackBuilder.TrackFileLines` and `TrackBuilder.TrackFileReadsBack` state how it reads back |
| TrackBuilder.HeaderNoNewline | wf/task.py:196 | the header line is a single line when the track name is |
| TrackBuilder.TrackFileLines | wf/task.py:196-203 | the file is the header line, then the row lines, then the final newline |
| TrackBuilder.TrackFileReadsBack | wf/task.py:185-203 | read back, the file is `track name="<track>" description="." itemRgb="On"`, then per results row in order: chr, start, end, q-value text, "0", ".", start, end, colour |
| TrackBuilder.CreateTrack | wf/task.py:152-206 | only the chosen file needs parsed contents; with no matching file the stage fails; otherwise its result is the track built from the last matching file, written to `IGV_track.bed` in `<track>/IGV_tracks` resolved against the working directory, under the directory mapped to `<remote>/<track>/IGV_tracks`, or the error that building raised |

## Left out

- Latch orchestration and UI metadata in `wf/__init__.py` (the workflow wiring, `LaunchPlan`, parameter sections): they contain no logic. The wiring passes `bed_format` and `genome` arguments that the task signatures do not accept; the model follows the task signatures.
- The methylKit R script and the `subprocess.run` call: the script is an external process whose code is not part of this model. Only its command line and its exit status (as a parameter) are modelled.
- File reading: pandas tokenising and type inference are not modelled. Tables arrive as parsed cells, and the first line of the DMR CSV is taken as its header. Raw files whose lines have unequal field counts are excluded by the `Rectangular` and `WellFormed` preconditions.
- File writing, `mkdir`, `print` and the read-and-rewrite used to prepend the header: the model returns the written tables (`BedWrite`) and the track file's text instead.
- `Path.resolve()`: it is modelled as keeping an absolute path (one starting with `/`, which covers empty and absolute track names) and as `workDir + "/" + path` otherwise. Collapsing doubled slashes and dropping a trailing slash (a track name such as `a/` or `a//b`), and normalising `..`, `.` and symbolic links, are not modelled: such track names keep their redundant slashes in the model's paths.
- Number-to-text conversion (`str` on floats, and `to_csv`'s formatting of int and float columns, such as `5` against `5.0` when NaN stops the integer downcast): this is the `render` parameter.
- `to_csv` quoting: fields that contain a separator or a quote character would be quoted. The read-back lemmas assume fields without tabs or newlines.
- IEEE-754 rounding of `* 0.01`, of the subtraction and division in the normalisation, and of `* 255`: all arithmetic is on exact reals.
- Latch file staging: `methyl_task` uses each ProcessedBED's local path as given, and downloading it elsewhere is not modelled.
- An empty results table: `WellFormed` requires at least one row.
- TrackBuilder.TrackRowsOf: any text p-value is a failure. pandas would compare the strings of a purely textual p-value column, and would only send such a column down the all-equal branch when every token is the same; that case is not modelled.
- Formatter.FormatTable: when several columns are wrong, the reported column is 10 before 9, following the order in which the expression evaluates them. Which exception pandas raises is not modelled.
- Invoker.CommandArguments: `sh` is modelled only as word splitting on spaces and tabs, with empty words dropped. An unquoted newline would end the command; `Invoker.Words` also separates on it, so it is a model only of lines without a newline, which is what every lemma about it covers. Quotes, `;`, `&`, `$`, `(`, globbing and `~` are not modelled, so the lemmas about how the command reads back cover only arguments made of letters, digits and `_-.,/:+@%`.
- The default values of `methyl_task`'s settings (`base_cov_val=3`, `tiling_val=200`, `tile_coverage=10`, `difference_val=25`, `q_val=0.01`, `wf/task.py:89-93`): the workflow always passes all five (`wf/__init__.py:279-286`), so `MethylTask` takes them as parameters.
- TrackBuilder.CellText: one `render` function stands for both number-to-text conversions. The model therefore cannot say that `to_csv` writes an integer column's 0 as `0` while `str` writes a float 0.0 as `0.0`. The dtype pandas infers for a column is not modelled either.
