# Land-registry CSV to JSON converter: a Dafny model

The converter reads a land-registry CSV export row by row. It turns each row
into a record whose owner columns are folded into a `proprietors` list, and
it writes the records of a run to a JSON output file. A progress file holds a
row cursor, so an interrupted run can resume where its last checkpoint left
off.

This project models that converter's core, `src/index.ts`:

- `processRow`: the per-row transformation. It is modelled as the pure function
  `RowTransform.Transform`, and the method `RowTransform.ProcessRow`, which
  mirrors the source's two loops, is proved equal to it.
- The six column-name patterns, each case-insensitive with `n` a run of
  decimal digits: `Proprietor Name (n)`, `Proprietorship Category (n)`,
  `Company Registration No. (n)`, `Proprietor (n) Address (1)`,
  `Proprietor (n) Address (2)` and `Proprietor (n) Address (3)`.
  They are modelled as literal prefixes and suffixes around a captured digit
  run (module `ColumnPatterns`). The model proves that no key matches two
  patterns, so the order of the `else if` chain does not matter.
- JavaScript's plain-object semantics, which decide the order of keys and of
  proprietors (module `JsObjects`). An assignment keeps an existing key where
  it is and appends a new one. `for...in` visits array-index keys
  (`0` … `2^32 - 2`, without leading zeros) first, in ascending numeric order,
  and then the other keys in insertion order.
- `processCSV`: the resumable batch driver. It is a class, `BatchDriver.Driver`,
  with the `data`, `end` and `error` handlers as methods. Its state after any
  sequence of events is proved equal to closed-form functions of the rows
  delivered so far. The method `BatchDriver.ProcessCsv` runs a whole input
  through the driver and states which files the run leaves behind.
- The stores: `getProgress`, `saveProgress` and `writeJsonFile`. The progress
  file and output file are fields of the driver. `writeJsonFile` also deletes
  the progress file.

Behaviour of the code worth knowing; the model follows the code in each case:

- **Proprietor order.** Proprietors are listed in the object's enumeration
  order: numeric indices first, ascending, then the other indices in order of
  first appearance. Column order alone does not decide it.
  `RowProperties.NameIndicesSpec` states this order.
- **The progress file after a flush.** Every flush deletes the progress file.
  This includes the flush on the `error` event and the flush at the row cap,
  where the cursor has just been saved. So only a run that stops without
  `end` or `error` leaves a cursor behind. A run that fails restarts from row
  0 and overwrites the output file.
- **Resuming.** A resumed run skips the rows up to the cursor. The records of
  those rows were only in memory, because the output file is written only
  when the run flushes. `BatchDriver.ResumeFromCheckpoint` states what the
  next run starts from.
- **The registration-number pattern.** In `No.` the `.` is an unescaped
  wildcard, so it matches any single character other than a line terminator.

## Model

| member | source | states |
|---|---|---|
| JsObjects.JsObject.Put | src/index.ts:58-75 | An assignment `obj[key] = v` makes `key` read `v` and leaves every other key as it was. An existing key keeps its position in the key order; a new key is appended. |
| JsObjects.EnumerationOrderPermutes | src/index.ts:47 | `for...in` visits exactly the object's own keys, each once. |
| JsObjects.EnumerationOrderSorts | src/index.ts:81 | `for...in` visits the array-index keys first, in ascending numeric order, then the other keys in insertion order. |
| ColumnPatterns.CaptureComplete | src/index.ts:49-54 | A key built from a pattern's prefix, a non-empty digit run and the pattern's suffix matches, and the match captures exactly that digit run. |
| ColumnPatterns.CaptureSound | src/index.ts:49-54 | A match splits the key into the prefix, a non-empty run of digits (the capture) and the suffix, and the key is nothing else. |
| ColumnPatterns.PatternsExclusive | src/index.ts:49-54 | No column name matches two of the six patterns. |
| ColumnPatterns.ClassifyIndexed | src/index.ts:56-73 | The `else if` chain files a key under a family, at the captured index, exactly when the key matches that family's pattern. |
| ColumnPatterns.ClassifyPlain | src/index.ts:74-76 | A key is copied through unchanged exactly when it matches none of the six patterns. |
| RowTransform.ProcessRow | src/index.ts:36-99 | The loop-based transformation returns the record that `Transform` specifies. |
| RowTransform.FileCells | src/index.ts:47-78 | The first loop files every present cell as the fold `Scan` over the row's keys specifies. |
| RowTransform.AssembleProprietors | src/index.ts:81-91 | The second loop builds one proprietor per name index, in the given order, as `Assemble` specifies. |
| RowProperties.ScanFamilies | src/index.ts:47-73 | After the first loop, the dictionary of a family holds, at each index, the value of the last present cell filed there, or nothing if no such cell exists. |
| RowProperties.ScanFamilyKeys | src/index.ts:47-73 | The indices of each family's dictionary are in the order the indices were first seen. |
| RowProperties.LastValueSome | src/index.ts:47-73 | A family's dictionary has an entry at an index exactly when some present cell is filed there. |
| RowProperties.ScanOut | src/index.ts:47-76 | A key appears in the output as text exactly when it is a key of the row, it matches no pattern and its cell is present (neither null, undefined nor empty). |
| RowProperties.ScanOutKeys | src/index.ts:47-76 | The copied columns keep the row's column order, and only present plain columns are copied. |
| RowProperties.ScanCongruent | src/index.ts:48 | The first loop depends only on which cells are present and their values. |
| RowProperties.AssembleElements | src/index.ts:81-91 | The assembled list has one proprietor per index, and element `j` is the proprietor of index `j`. |
| RowProperties.ProprietorsKeyPlain | src/index.ts:95 | The `proprietors` key matches none of the six patterns. |
| RowProperties.NameIndicesSpec | src/index.ts:81 | The proprietors loop visits each index that has a name exactly once. Array-index names come first, in ascending numeric order; the others follow in the order of their first name column. |
| RowProperties.ProprietorAtDescribes | src/index.ts:82-89 | The proprietor of an index carries that index's name, and its category, registration number and three address lines from the same index, each missing when no present cell supplied it. |
| RowProperties.AssembleDescribes | src/index.ts:81-91 | The proprietor list has one entry per name index, in enumeration order, and each entry describes its index. |
| RowProperties.NameIndicesNonEmpty | src/index.ts:56-94 | The list of proprietors is non-empty exactly when some present cell matches the name pattern. |
| RowProperties.TransformColumn | src/index.ts:47-76 | In the record, a column other than `proprietors` is the row's cell when the cell is present and the column matches no pattern; otherwise the column is absent. |
| RowProperties.TransformProprietors | src/index.ts:93-96 | With a name cell, `proprietors` is the non-empty list that describes the row's proprietors. Without one, no list is attached and a plain `proprietors` column passes through. |
| RowProperties.TransformKeys | src/index.ts:74-96 | The record's keys are the row's copied columns in row order, followed by `proprietors` when a list is attached and the column was not already copied. |
| RowProperties.TransformCongruent | src/index.ts:47-48 | Two rows with the same columns and the same present cells give the same record. |
| RowProperties.EmptyCellsIgnored | src/index.ts:48 | Setting an absent cell to null or to the empty string does not change the record. |
| BatchDriver.BatchCountMod | src/index.ts:127-133 | The batch counter is the number of rows processed since the starting cursor, modulo the batch size. |
| BatchDriver.SavedCursorIsLastCheckpoint | src/index.ts:127-133 | Before any flush, the progress file holds the last cursor that lies a multiple of the batch size past the start. It is the stored cursor while fewer rows than a batch were processed. |
| BatchDriver.CheckpointBounds | src/index.ts:127-133 | A saved cursor lies a whole number of batches (at least one) past the start, and fewer than a batch of processed rows lie beyond it. |
| BatchDriver.BufferedSpec | src/index.ts:115-128 | The buffer holds, in order, the record of every delivered row from the starting cursor on, up to the cap, and never more records than the cap. |
| BatchDriver.ResumeFromCheckpoint | src/index.ts:115-133 | After a run stops without `end` or `error`, the next run starts from the last checkpoint: at least one batch past the previous start and at most the rows consumed. Under any cap, that run buffers exactly the records of the rows from the checkpoint on, and no more rows than the cap. |
| BatchDriver.Driver.constructor | src/index.ts:101-106 | A run starts with the stored cursor (0 without a progress file), zero counts, an empty buffer and the input open. |
| BatchDriver.Driver.SaveProgress | src/index.ts:32-34 | `saveProgress` makes the progress file hold the cursor. |
| BatchDriver.Driver.WriteJsonFile | src/index.ts:153-157 | `writeJsonFile` makes the output file hold the buffer and deletes the progress file. |
| BatchDriver.Driver.OnData | src/index.ts:112-137 | After a stop, a row changes nothing. Before the cursor, a row is only counted. The row that meets the cap stops the run, flushes and leaves no progress file. Any other row is transformed, buffered and counted, and every batch-size rows the cursor is saved. The driver invariant is kept. |
| BatchDriver.Driver.Skip | src/index.ts:134-136 | A row the previous run already handled only advances the row count. |
| BatchDriver.Driver.StopAtCap | src/index.ts:116-122 | The cap row stops processing, writes the buffer, leaves no progress file and closes the input. |
| BatchDriver.Driver.Process | src/index.ts:124-133 | A new row's record is appended to the buffer. The counters advance, and the cursor is saved when the batch fills. |
| BatchDriver.Driver.OnEnd | src/index.ts:138-144 | At end of input the buffer is in the output file and the progress file is gone. The file is written exactly once, by the cap flush or by this handler. |
| BatchDriver.Driver.OnError | src/index.ts:145-148 | On an input error the buffer is written, even after a cap flush, and the progress file is gone. |
| BatchDriver.ProcessCsv | src/index.ts:101-151 | A whole run leaves behind three results. The input delivers every row, or only up to the cap row. The output file holds the buffered records if the cap was met or the input ended or failed; otherwise it is untouched. The progress file is gone in those cases; otherwise it holds the last checkpoint. |
| BatchDriver.RunPrefix | src/index.ts:113-120 | The rows delivered before the driver closed the input determine the same counts and buffer as the whole input. |

## Left out

- File I/O is modelled as values. The progress file is an optional cursor and
  the output file is an optional array of records. JSON text, its
  indentation, `fs` calls and write failures are not modelled.
- CSV parsing by `fast-csv` is not modelled. A row is given as an object of
  columns to optional strings (`None` for null or undefined). Duplicate
  headers and non-string cell values are not covered.
- `getProgress` parses arbitrary JSON. The model assumes the progress file is
  either absent or holds a non-negative whole-number `lastProcessedRow`. A
  progress file that is not valid JSON makes `getProgress` throw. One that
  parses but whose `lastProcessedRow` is missing, negative, fractional or a
  string does not throw. For example, `{}` makes every row take the skip
  branch, so the run writes an empty array. A string such as `"3"` turns the
  cap test into a string concatenation. None of these cases is modelled.
- The asynchronous stream and event loop are not modelled. Events are method
  calls in delivery order. Destroying the input stream is modelled as
  `sourceOpen := false`, after which `ProcessCsv` delivers no more rows.
  Events after `end` or `error` are not modelled.
- Console logging is not modelled.
- `BATCH_SIZE` and `MAX_ROWS_TO_PROCESS` are parameters rather than the
  source's fixed constants. A cap of 0 means no cap, as in the source's
  truthiness test.
- Strings are sequences of Unicode characters, not UTF-16 code units. A key
  in which the registration pattern's `.` falls on a character outside the
  Basic Multilingual Plane matches in the model but not in JavaScript.
  Case-insensitive matching compares ASCII letters only. This is exact for
  these ASCII-only patterns without the `u` flag.
- Assigning the key `__proto__`, which has special meaning on JavaScript
  objects, is modelled as an ordinary key.
- Calling `processRow` twice on the same row gives the same record. In the
  model this is immediate, because `Transform` is a function, so no separate
  lemma is stated.
