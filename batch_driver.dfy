/**
 * The resumable batch driver, `processCSV`: rows arrive one `data` event at
 * a time and are skipped up to the stored cursor, transformed and buffered
 * up to the row cap, and checkpointed every `batchSize` rows; the `end`
 * and `error` events and the cap flush the buffer to the output file, and
 * every flush deletes the progress file.
 *
 * The driver's state after any sequence of events is a function of the
 * rows delivered so far; the functions below give it in closed form.
 */
module BatchDriver {
  import opened Wrappers
  import opened JsObjects
  import opened RowTransform

  /** `getProgress`: the stored cursor, or 0 when there is no progress file. */
  function Start(stored: Option<nat>): nat {
    if stored.Some? then stored.value else 0
  }

  /** `f` applied to each element of `s`, in order. */
  function MapSeq<A, B>(f: A -> B, s: seq<A>): (r: seq<B>)
    ensures |r| == |s|
  {
    seq(|s|, i requires 0 <= i < |s| => f(s[i]))
  }

  /** `processRow` applied to each row, in order. */
  function ProcessAll(rows: seq<Row>): seq<Record> {
    MapSeq(Transform, rows)
  }

  /** Among `n` delivered rows, one met the cap: a non-zero cap with `n` beyond the skipped and allowed rows. */
  predicate CapHit(start: nat, maxRows: nat, n: nat) {
    maxRows > 0 && n > start + maxRows
  }

  /** `rowsProcessed` after `n` delivered rows: every row counts but the one that meets the cap. */
  function Consumed(start: nat, maxRows: nat, n: nat): nat {
    if CapHit(start, maxRows, n) then start + maxRows else n
  }

  /**
   * `currentBatch` once `consumed` rows have counted: each processed row
   * adds one, and reaching `batchSize` resets it to 0.
   */
  function BatchCount(start: nat, batchSize: nat, consumed: nat): nat
    requires batchSize > 0
    decreases consumed
  {
    if consumed <= start then 0
    else
      var before := BatchCount(start, batchSize, consumed - 1);
      if before + 1 >= batchSize then 0 else before + 1
  }

  /** The progress file once `consumed` rows have counted, before any flush: the cursor of the last checkpoint. */
  function SavedCursor(stored: Option<nat>, start: nat, batchSize: nat, consumed: nat): Option<nat>
    requires batchSize > 0
    decreases consumed
  {
    if consumed <= start then stored
    else if BatchCount(start, batchSize, consumed) == 0 then Some(consumed)
    else SavedCursor(stored, start, batchSize, consumed - 1)
  }

  /** `jsonArray` after `rows` were delivered: the processed rows, those past the cursor and before the cap. */
  function Buffered(start: nat, maxRows: nat, rows: seq<Row>): seq<Record> {
    var consumed := Consumed(start, maxRows, |rows|);
    if consumed <= start then [] else ProcessAll(rows[start..consumed])
  }

  /** Mapping distributes over appending one element. */
  lemma MapSeqAppend<A, B>(f: A -> B, s: seq<A>, x: A)
    ensures MapSeq(f, s + [x]) == MapSeq(f, s) + [f(x)]
  {
    var all := s + [x];
    assert forall i :: 0 <= i < |s| ==> all[i] == s[i];
  }

  /** A row before the cursor only advances the count: buffer, batch and saved cursor stay. */
  lemma SkipStep(start: nat, maxRows: nat, batchSize: nat, stored: Option<nat>, rows: seq<Row>, row: Row)
    requires batchSize > 0
    requires |rows| < start
    ensures var n := |rows| + 1;
      && !CapHit(start, maxRows, n) && Consumed(start, maxRows, n) == n
      && BatchCount(start, batchSize, n) == BatchCount(start, batchSize, |rows|)
      && SavedCursor(stored, start, batchSize, n) == SavedCursor(stored, start, batchSize, |rows|)
      && Buffered(start, maxRows, rows + [row]) == Buffered(start, maxRows, rows)
  {
  }

  /** A processed row is appended to the buffer. */
  lemma ProcessStep(start: nat, maxRows: nat, rows: seq<Row>, row: Row, processed: Record)
    requires start <= |rows| && !(maxRows > 0 && |rows| >= start + maxRows)
    requires ProcessAll([row]) == [processed]
    ensures var n := |rows| + 1;
      && !CapHit(start, maxRows, n) && Consumed(start, maxRows, n) == n
      && Buffered(start, maxRows, rows + [row]) == Buffered(start, maxRows, rows) + [processed]
  {
    var c := |rows|;
    var all := rows + [row];
    assert Consumed(start, maxRows, c) == c && Consumed(start, maxRows, c + 1) == c + 1;
    assert Buffered(start, maxRows, all) == ProcessAll(all[start..c + 1]);
    assert all[start..c + 1] == rows[start..c] + [row];
    MapSeqAppend(Transform, rows[start..c], row);
    assert processed == ProcessAll([row])[0] == Transform(row);
    if c == start {
      assert rows[start..c] == [];
    }
  }

  /** Every `batchSize` processed rows, the count restarts and the saved cursor moves to the row count. */
  lemma CountStep(start: nat, batchSize: nat, stored: Option<nat>, c: nat)
    requires batchSize > 0 && start <= c
    ensures BatchCount(start, batchSize, c + 1) ==
        (if BatchCount(start, batchSize, c) + 1 >= batchSize then 0 else BatchCount(start, batchSize, c) + 1)
    ensures SavedCursor(stored, start, batchSize, c + 1) ==
        (if BatchCount(start, batchSize, c) + 1 >= batchSize then Some(c + 1) else SavedCursor(stored, start, batchSize, c))
  {
  }

  /** The row that meets the cap is not counted: the closed forms stay where they were. */
  lemma CapStep(start: nat, maxRows: nat, rows: seq<Row>, row: Row)
    requires maxRows > 0 && |rows| == start + maxRows
    ensures var n := |rows| + 1;
      && CapHit(start, maxRows, n) && Consumed(start, maxRows, n) == Consumed(start, maxRows, |rows|)
      && Buffered(start, maxRows, rows + [row]) == Buffered(start, maxRows, rows)
  {
    assert (rows + [row])[start..|rows|] == rows[start..|rows|];
  }

  lemma MulAtLeast(x: nat, b: nat)
    requires x >= 1
    ensures x * b >= b
  {
    if x > 1 {
      MulAtLeast(x - 1, b);
      assert x * b == (x - 1) * b + b;
    }
  }

  lemma MulGap(x: nat, y: nat, b: nat)
    requires x > y
    ensures x * b >= y * b + b
  {
    MulAtLeast(x - y, b);
    assert (x - y) * b == x * b - y * b;
  }

  /** Division with remainder is unique. */
  lemma ModUnique(a: nat, b: nat, q: nat, r: nat)
    requires b > 0 && r < b && a == q * b + r
    ensures a % b == r
  {
    var q', r' := a / b, a % b;
    assert a == q' * b + r';
    if q' < q {
      MulGap(q, q', b);
    } else if q' > q {
      MulGap(q', q, b);
    }
  }

  lemma QuotientPositive(a: nat, b: nat)
    requires 0 < b <= a
    ensures a / b >= 1
  {
    assert a == (a / b) * b + a % b;
  }

  /** `(a + 1) % b` from `a % b`. */
  lemma ModSucc(a: nat, b: nat)
    requires b > 0
    ensures (a + 1) % b == if a % b + 1 == b then 0 else a % b + 1
  {
    var q, r := a / b, a % b;
    assert a == q * b + r;
    if r + 1 == b {
      assert a + 1 == (q + 1) * b + 0;
      ModUnique(a + 1, b, q + 1, 0);
    } else {
      ModUnique(a + 1, b, q, r + 1);
    }
  }

  /** The batch count is the number of processed rows modulo `batchSize`. */
  lemma {:induction false} BatchCountMod(start: nat, batchSize: nat, consumed: nat)
    requires batchSize > 0 && start <= consumed
    ensures BatchCount(start, batchSize, consumed) == (consumed - start) % batchSize
    decreases consumed
  {
    if consumed > start {
      BatchCountMod(start, batchSize, consumed - 1);
      ModSucc(consumed - 1 - start, batchSize);
    }
  }

  /**
   * The saved cursor is the last multiple of `batchSize` processed rows past
   * the starting cursor, or the stored cursor while fewer than `batchSize`
   * rows were processed.
   */
  lemma {:induction false} SavedCursorIsLastCheckpoint(stored: Option<nat>, start: nat, batchSize: nat, consumed: nat)
    requires batchSize > 0
    ensures consumed < start + batchSize ==> SavedCursor(stored, start, batchSize, consumed) == stored
    ensures consumed >= start + batchSize ==>
      SavedCursor(stored, start, batchSize, consumed) == Some(consumed - (consumed - start) % batchSize)
    decreases consumed
  {
    if consumed > start {
      SavedCursorIsLastCheckpoint(stored, start, batchSize, consumed - 1);
      BatchCountMod(start, batchSize, consumed);
      BatchCountMod(start, batchSize, consumed - 1);
      ModSucc(consumed - 1 - start, batchSize);
      if consumed < start + batchSize {
        assert (consumed - start) % batchSize == consumed - start by {
          ModUnique(consumed - start, batchSize, 0, consumed - start);
        }
      } else if consumed == start + batchSize {
        ModUnique(consumed - start, batchSize, 1, 0);
      }
    }
  }

  /**
   * Checkpoints are cumulative: a saved cursor counts the rows before the
   * starting cursor plus a whole number of batches, and fewer than
   * `batchSize` processed rows lie past it.
   */
  lemma CheckpointBounds(stored: Option<nat>, start: nat, batchSize: nat, consumed: nat)
    requires batchSize > 0 && consumed >= start + batchSize
    ensures var cursor := SavedCursor(stored, start, batchSize, consumed);
      && cursor.Some? && start + batchSize <= cursor.value <= consumed
      && (cursor.value - start) % batchSize == 0
      && consumed - cursor.value < batchSize
  {
    SavedCursorIsLastCheckpoint(stored, start, batchSize, consumed);
    var a := consumed - start;
    var q, r := a / batchSize, a % batchSize;
    var whole := q * batchSize;
    assert a == whole + r;
    QuotientPositive(a, batchSize);
    MulAtLeast(q, batchSize);
    ModUnique(whole, batchSize, q, 0);
    assert consumed - r - start == whole;
  }

  /**
   * The buffer holds `processRow` of every delivered row from the starting
   * cursor on, up to the cap and never more than the cap allows.
   */
  lemma BufferedSpec(start: nat, maxRows: nat, rows: seq<Row>)
    ensures var consumed := Consumed(start, maxRows, |rows|);
      |Buffered(start, maxRows, rows)| == if consumed <= start then 0 else consumed - start
    ensures maxRows > 0 ==> |Buffered(start, maxRows, rows)| <= maxRows
    ensures forall k :: 0 <= k < |Buffered(start, maxRows, rows)| ==>
      start + k < |rows| && Buffered(start, maxRows, rows)[k] == Transform(rows[start + k])
  {
    var consumed := Consumed(start, maxRows, |rows|);
    if consumed > start {
      var b := Buffered(start, maxRows, rows);
      forall k | 0 <= k < |b| ensures start + k < |rows| && b[k] == Transform(rows[start + k]) {
        assert rows[start..consumed][k] == rows[start + k];
      }
    }
  }

  /**
   * After a run stops without `end` or `error`, the next run resumes from
   * the last checkpoint: it skips the rows counted there, although the
   * interrupted run never wrote their records to the output file, and
   * buffers the records of the rows from the checkpoint on, up to its cap.
   */
  lemma ResumeFromCheckpoint(stored: Option<nat>, batchSize: nat, maxRows: nat, rows: seq<Row>, consumed: nat)
    requires batchSize > 0
    requires Start(stored) + batchSize <= consumed <= |rows|
    ensures var cursor := SavedCursor(stored, Start(stored), batchSize, consumed);
      && cursor.Some? && Start(stored) + batchSize <= cursor.value <= consumed
      && var next := Consumed(cursor.value, maxRows, |rows|);
      && cursor.value <= next <= |rows|
      && (maxRows > 0 ==> next <= cursor.value + maxRows)
      && Buffered(cursor.value, maxRows, rows) == ProcessAll(rows[cursor.value..next])
  {
    CheckpointBounds(stored, Start(stored), batchSize, consumed);
    var cursor := SavedCursor(stored, Start(stored), batchSize, consumed).value;
    var next := Consumed(cursor, maxRows, |rows|);
    if next <= cursor {
      assert rows[cursor..next] == [];
    }
  }

  /** How a run ends: the source's `end` event or its `error` event. */
  datatype Termination = End | Failure

  class Driver {
    /** `BATCH_SIZE` */
    const batchSize: nat
    /** `MAX_ROWS_TO_PROCESS`; 0 means no cap */
    const maxRowsToProcess: nat
    /** `progress.lastProcessedRow`, read once when the run starts */
    const lastProcessedRow: nat

    var rowsProcessed: nat
    var currentBatch: nat
    var stopProcessing: bool
    var jsonArray: seq<Record>
    /** The progress file: the saved cursor, or `None` when there is no file. */
    var progressFile: Option<nat>
    /** The output file: the last array written, or `None` when there is no file. */
    var outputFile: Option<seq<Record>>
    /** Whether the input stream still delivers rows. */
    var sourceOpen: bool

    /** The progress file and output file as the run found them. */
    ghost const storedProgress: Option<nat>
    ghost const storedOutput: Option<seq<Record>>
    /** The rows handled while the driver was not stopped, the cap row included. */
    ghost var delivered: seq<Row>
    ghost var ended: bool
    ghost var failed: bool
    /** How often the output file was written. */
    ghost var flushes: nat

    ghost predicate Valid()
      reads this
    {
      var n := |delivered|;
      var consumed := Consumed(lastProcessedRow, maxRowsToProcess, n);
      && batchSize > 0
      && lastProcessedRow == Start(storedProgress)
      && (maxRowsToProcess > 0 ==> n <= lastProcessedRow + maxRowsToProcess + 1)
      && rowsProcessed == consumed
      && stopProcessing == CapHit(lastProcessedRow, maxRowsToProcess, n)
      && sourceOpen == !stopProcessing
      && currentBatch == BatchCount(lastProcessedRow, batchSize, consumed)
      && currentBatch < batchSize
      && jsonArray == Buffered(lastProcessedRow, maxRowsToProcess, delivered)
      && (maxRowsToProcess > 0 ==> |jsonArray| <= maxRowsToProcess)
      && !(ended && failed)
      && flushes == (if stopProcessing || ended then 1 else 0) + (if failed then 1 else 0)
      && outputFile == (if flushes == 0 then storedOutput else Some(jsonArray))
      && progressFile == (if flushes > 0 then None else SavedCursor(storedProgress, lastProcessedRow, batchSize, consumed))
    }

    /** Starts a run: reads the cursor and begins with an empty buffer. */
    constructor (batchSize: nat, maxRowsToProcess: nat, progressFile: Option<nat>, outputFile: Option<seq<Record>>)
      requires batchSize > 0
      ensures Valid()
      ensures this.batchSize == batchSize && this.maxRowsToProcess == maxRowsToProcess
      ensures lastProcessedRow == Start(progressFile)
      ensures storedProgress == progressFile && storedOutput == outputFile
      ensures delivered == [] && !ended && !failed
      ensures rowsProcessed == 0 && currentBatch == 0 && !stopProcessing && jsonArray == []
      ensures this.progressFile == progressFile && this.outputFile == outputFile && sourceOpen
    {
      this.batchSize := batchSize;
      this.maxRowsToProcess := maxRowsToProcess;
      lastProcessedRow := Start(progressFile);
      storedProgress := progressFile;
      storedOutput := outputFile;
      rowsProcessed := 0;
      currentBatch := 0;
      stopProcessing := false;
      jsonArray := [];
      this.progressFile := progressFile;
      this.outputFile := outputFile;
      sourceOpen := true;
      delivered := [];
      ended := false;
      failed := false;
      flushes := 0;
    }

    /** `saveProgress`: overwrites the progress file with `cursor`. */
    method SaveProgress(cursor: nat)
      modifies this`progressFile
      ensures progressFile == Some(cursor)
    {
      progressFile := Some(cursor);
    }

    /** `writeJsonFile`: overwrites the output file with the buffer, then removes the progress file. */
    method WriteJsonFile()
      modifies this`outputFile, this`progressFile, this`flushes
      ensures outputFile == Some(jsonArray) && progressFile == None
      ensures flushes == old(flushes) + 1
    {
      outputFile := Some(jsonArray);
      progressFile := None;
      flushes := flushes + 1;
    }

    /** The `data` handler. */
    method OnData(row: Row)
      requires Valid() && !ended && !failed
      modifies this
      ensures Valid() && !ended && !failed
      ensures old(stopProcessing) ==> unchanged(this)
      ensures !old(stopProcessing) ==> delivered == old(delivered) + [row]
      // a row before the cursor is only counted
      ensures !old(stopProcessing) && old(rowsProcessed) < lastProcessedRow ==>
        && rowsProcessed == old(rowsProcessed) + 1 && currentBatch == old(currentBatch)
        && !stopProcessing && jsonArray == old(jsonArray)
        && progressFile == old(progressFile) && outputFile == old(outputFile)
      // the row that meets the cap stops the run: the cursor is saved and removed again by the flush
      ensures (&& !old(stopProcessing) && lastProcessedRow <= old(rowsProcessed)
               && maxRowsToProcess > 0 && old(rowsProcessed) >= lastProcessedRow + maxRowsToProcess) ==>
        && stopProcessing && !sourceOpen && rowsProcessed == old(rowsProcessed)
        && jsonArray == old(jsonArray) && outputFile == Some(jsonArray) && progressFile == None
      // any other row is processed and buffered, and every `batchSize` of them a checkpoint is saved
      ensures (&& !old(stopProcessing) && lastProcessedRow <= old(rowsProcessed)
               && !(maxRowsToProcess > 0 && old(rowsProcessed) >= lastProcessedRow + maxRowsToProcess)) ==>
        && !stopProcessing && rowsProcessed == old(rowsProcessed) + 1
        && jsonArray == old(jsonArray) + [Transform(row)] && outputFile == old(outputFile)
        && (if old(currentBatch) + 1 >= batchSize
            then currentBatch == 0 && progressFile == Some(rowsProcessed)
            else currentBatch == old(currentBatch) + 1 && progressFile == old(progressFile))
    {
      if stopProcessing {
        return;
      }
      if rowsProcessed >= lastProcessedRow {
        if maxRowsToProcess > 0 && rowsProcessed >= lastProcessedRow + maxRowsToProcess {
          StopAtCap(row);
          return;
        }
        var processed := ProcessRow(row);
        assert ProcessAll([row]) == [processed];
        Process(row, processed);
      } else {
        Skip(row);
      }
    }

    /** A row the previous run already handled: counted, nothing else. */
    method Skip(row: Row)
      requires Valid() && !ended && !failed && !stopProcessing
      requires rowsProcessed < lastProcessedRow
      modifies this`rowsProcessed, this`delivered
      ensures Valid()
      ensures delivered == old(delivered) + [row] && rowsProcessed == old(rowsProcessed) + 1
    {
      SkipStep(lastProcessedRow, maxRowsToProcess, batchSize, storedProgress, delivered, row);
      delivered := delivered + [row];
      rowsProcessed := rowsProcessed + 1;
    }

    /** The row that meets the cap: the run stops, saves the cursor, flushes and closes the input. */
    method StopAtCap(row: Row)
      requires Valid() && !ended && !failed && !stopProcessing
      requires maxRowsToProcess > 0 && rowsProcessed >= lastProcessedRow + maxRowsToProcess
      modifies this`stopProcessing, this`progressFile, this`outputFile, this`flushes, this`sourceOpen, this`delivered
      ensures Valid()
      ensures delivered == old(delivered) + [row]
      ensures stopProcessing && !sourceOpen && outputFile == Some(jsonArray) && progressFile == None
    {
      CapStep(lastProcessedRow, maxRowsToProcess, delivered, row);
      delivered := delivered + [row];
      stopProcessing := true;
      SaveProgress(rowsProcessed);
      WriteJsonFile();
      sourceOpen := false;
    }

    /** A new row under the cap: buffered, counted, and checkpointed every `batchSize` rows. */
    method Process(row: Row, processed: Record)
      requires Valid() && !ended && !failed && !stopProcessing
      requires lastProcessedRow <= rowsProcessed
      requires !(maxRowsToProcess > 0 && rowsProcessed >= lastProcessedRow + maxRowsToProcess)
      requires ProcessAll([row]) == [processed]
      modifies this`jsonArray, this`rowsProcessed, this`currentBatch, this`progressFile, this`delivered
      ensures Valid()
      ensures delivered == old(delivered) + [row]
      ensures rowsProcessed == old(rowsProcessed) + 1 && jsonArray == old(jsonArray) + [processed]
      ensures if old(currentBatch) + 1 >= batchSize
        then currentBatch == 0 && progressFile == Some(rowsProcessed)
        else currentBatch == old(currentBatch) + 1 && progressFile == old(progressFile)
    {
      ProcessStep(lastProcessedRow, maxRowsToProcess, delivered, row, processed);
      CountStep(lastProcessedRow, batchSize, storedProgress, |delivered|);
      delivered := delivered + [row];
      jsonArray := jsonArray + [processed];
      rowsProcessed := rowsProcessed + 1;
      currentBatch := currentBatch + 1;
      if currentBatch >= batchSize {
        SaveProgress(rowsProcessed);
        currentBatch := 0;
      }
    }

    /** The `end` handler: unless the cap already flushed, saves the cursor and flushes. */
    method OnEnd()
      requires Valid() && !ended && !failed
      modifies this
      ensures Valid() && ended && !failed
      ensures delivered == old(delivered) && jsonArray == old(jsonArray) && rowsProcessed == old(rowsProcessed)
      ensures outputFile == Some(jsonArray) && progressFile == None
      ensures flushes == 1
    {
      if !stopProcessing {
        SaveProgress(rowsProcessed);
        WriteJsonFile();
      }
      ended := true;
    }

    /** The `error` handler: flushes whatever was buffered, whether or not the cap already did. */
    method OnError()
      requires Valid() && !ended && !failed
      modifies this
      ensures Valid() && failed && !ended
      ensures delivered == old(delivered) && jsonArray == old(jsonArray) && rowsProcessed == old(rowsProcessed)
      ensures outputFile == Some(jsonArray) && progressFile == None
      ensures flushes == old(flushes) + 1
    {
      WriteJsonFile();
      failed := true;
    }
  }

  /**
   * One run of `processCSV` over an input whose rows are `rows`, starting
   * from the given progress and output files.  The source delivers the rows
   * in order until the driver closes it; then it signals `ending`, where
   * `None` stands for a run that stops without either event.  Returns the
   * files the run leaves behind and how many rows the source delivered.
   */
  method ProcessCsv(batchSize: nat, maxRowsToProcess: nat, progressFile: Option<nat>,
                    outputFile: Option<seq<Record>>, rows: seq<Row>, ending: Option<Termination>)
    returns (progressAfter: Option<nat>, outputAfter: Option<seq<Record>>, delivered: nat)
    requires batchSize > 0
    ensures var start := Start(progressFile);
      var capped := CapHit(start, maxRowsToProcess, |rows|);
      var consumed := Consumed(start, maxRowsToProcess, |rows|);
      && delivered == (if capped then consumed + 1 else |rows|)
      && outputAfter == (if capped || ending.Some? then Some(Buffered(start, maxRowsToProcess, rows)) else outputFile)
      && progressAfter == (if capped || ending.Some? then None else SavedCursor(progressFile, start, batchSize, consumed))
  {
    var driver := new Driver(batchSize, maxRowsToProcess, progressFile, outputFile);
    var i := 0;
    while i < |rows| && driver.sourceOpen
      invariant 0 <= i <= |rows|
      invariant driver.Valid() && !driver.ended && !driver.failed
      invariant driver.batchSize == batchSize && driver.maxRowsToProcess == maxRowsToProcess
      invariant driver.lastProcessedRow == Start(progressFile)
      invariant driver.storedProgress == progressFile && driver.storedOutput == outputFile
      invariant driver.delivered == rows[..i]
      decreases |rows| - i
    {
      driver.OnData(rows[i]);
      assert rows[..i + 1] == rows[..i] + [rows[i]];
      i := i + 1;
    }
    delivered := i;
    RunPrefix(Start(progressFile), maxRowsToProcess, rows, i, !driver.sourceOpen);
    match ending {
      case Some(End) => driver.OnEnd();
      case Some(Failure) => driver.OnError();
      case None =>
    }
    progressAfter, outputAfter := driver.progressFile, driver.outputFile;
  }

  /**
   * The rows a run saw before it stopped, or all of them, determine the
   * same counts and buffer as the whole input.
   */
  lemma RunPrefix(start: nat, maxRows: nat, rows: seq<Row>, i: nat, stopped: bool)
    requires i <= |rows|
    requires maxRows > 0 ==> i <= start + maxRows + 1
    requires stopped == CapHit(start, maxRows, i)
    requires i == |rows| || stopped
    ensures CapHit(start, maxRows, |rows|) == stopped
    ensures Consumed(start, maxRows, |rows|) == Consumed(start, maxRows, i)
    ensures CapHit(start, maxRows, |rows|) ==> i == Consumed(start, maxRows, |rows|) + 1
    ensures Buffered(start, maxRows, rows[..i]) == Buffered(start, maxRows, rows)
  {
    var c := Consumed(start, maxRows, i);
    if c > start {
      assert rows[..i][start..c] == rows[start..c];
    }
  }
}
