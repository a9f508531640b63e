# Apache Hama: sequential core in Dafny

This project models the sequential parts of Apache Hama, the bulk-synchronous
parallel (BSP) framework built on Hadoop and HBase. Each part is written as
Dafny classes and functions, and the properties the code promises are proved.

- **Input splits of a matrix table** (`MatrixInputFormatBase.getSplits`).
  - The regions of an HBase table are grouped into `min(numSplits, regions)` contiguous splits.
  - Split sizes differ by at most one, and the larger splits come first.
  - Each error check is modelled: no region, no column, a negative split count, and a split count of zero.
- **The line record reader** (`LineRecordReader`).
  - Its three constructors set up the `start`/`pos`/`end` cursor, including the skip of the partial first line of a split.
  - `next` skips over-long lines and stops at `end`.
  - Hadoop's `LineReader` is an oracle that reports only how many bytes each `readLine` consumed.
- **The task identity record** (`Task`).
  - Covers the constructors, accessors and `setJobFile`.
  - The Writable layout is the job id, the job file, the attempt id and a 4-byte partition.
  - `readFields` overwrites the fields in that order, so a truncated record leaves the fields read before the failure point overwritten.
  - `done` reports to the umbilical.
- **The matrix block cell** (`BlockEntry`).
  - Covers the parallel value/timestamp arrays, the constructors and `getTimestamp`.
  - The layout is a count, the timestamps as longs, then the values through a byte-array encoder.
  - Values are nullable references. A failed `readFields` leaves nulls behind, and `write` stops with an exception at the first null value.
  - Also covered: the iterator, with its off-by-one in `hasNext`.
- **The job client** (`BSPJobClient`).
  - The task-count clamps of `submitJobInternal` and `runJob`.
  - The `NetworkedJob` handle with its two-second status cache.
  - The terminal-state tests.
  - The memoised system directory, `getJob`.
  - The argument check and dispatch choice of the `hama job` command line.

`java.io.DataOutput` and `DataInput` are classes over a byte sequence (module
`DataIO`). Java's big-endian `int` and `long` encodings are proved to
round-trip.

Some encoders are not part of this model:
- `BSPJobID`
- `TaskAttemptID`
- Hadoop `Text.writeString`
- HBase `Bytes.writeByteArray`

They are `Codec` parameters, and the round-trip lemmas hold for every codec
that is `Sound`: it decodes what it encoded, whatever follows, and rejects
every strict prefix of an encoding. A byte-array codec with a 4-byte length
prefix is proved `Sound`, so the assumption made of the byte-array encoder can
be met. HBase's own encoding uses a variable-length prefix, which is not
modelled. No codec is given for `Text`, `BSPJobID` or `TaskAttemptID`, so for
those encoders soundness remains an assumption.

The BSP master behind `JobSubmissionProtocol` is a stub (`JobSubmission`)
whose answers are fields. The clock is a `now` parameter in milliseconds.

Where the code differs from what one might expect of it, the model follows
the code:
- The task-count clamp happens in the client before submission, not in the
  master.
- `Task.readFields` leaves the fields it read before a failure overwritten,
  rather than rejecting the whole record atomically.
- `Task.done` reports again on every call; it is not idempotent.
- `getSplits` with no table reports "Expecting at least one region", because
  the exception from dereferencing the missing table is swallowed.
- A split count below 1 is modelled as the error it causes in the code (a
  negative array size, or a division by zero), not as a precondition.
- `run` returns 0 after every command it dispatches without an exception, even
  when `-status` or `-kill` finds no job. A `-submit` whose submission fails
  with "Could not launch job" ends in that exception instead.

Files: `wrappers.dfy`, `data_io.dfy`, `matrix_input_format.dfy`,
`line_record_reader.dfy`, `task.dfy`, `block_entry.dfy`, `job_client.dfy`.

## Model

| member | source | states |
|---|---|---|
| MatrixInputFormat.SplitStartClosedForm | src/java/org/apache/hama/mapred/MatrixInputFormatBase.java:247-251 | split i starts after i shares of `regions / k` plus one extra region for each earlier split among the first `regions % k` |
| MatrixInputFormat.SplitsCover | src/java/org/apache/hama/mapred/MatrixInputFormatBase.java:248-258 | the splits laid end to end start at region 0 and end exactly at the last region |
| MatrixInputFormat.SplitSizesBalanced | src/java/org/apache/hama/mapred/MatrixInputFormatBase.java:211-219 | with no more splits than regions, every split is non-empty, earlier splits are never smaller, and sizes differ by at most one |
| MatrixInputFormat.SplitStartInBounds | src/java/org/apache/hama/mapred/MatrixInputFormatBase.java:250-253 | splits start strictly increasing, and every `startKeys[startPos]` and `startKeys[lastPos]` indexed is within the region array |
| MatrixInputFormat.MatrixInputFormatBase.SetInputColumns | src/java/org/apache/hama/mapred/MatrixInputFormatBase.java:267-269 | stores the columns and changes nothing else |
| MatrixInputFormat.MatrixInputFormatBase.SetHTable | src/java/org/apache/hama/mapred/MatrixInputFormatBase.java:276-278 | stores the table and changes nothing else |
| MatrixInputFormat.MatrixInputFormatBase.GetSplits | src/java/org/apache/hama/mapred/MatrixInputFormatBase.java:229-262 | no table or no region gives NoRegion, then no column gives NoColumn, a negative count NegativeArraySize, a zero count DivisionByZero; otherwise `min(numSplits, regions)` splits, split i running from its start key to the next split's start key, the last one to the empty row |
| LineRecords.IntCast | trunk/core/src/main/java/org/apache/hama/bsp/LineRecordReader.java:111-112 | Java's `(int)` cast of a long keeps every value within the int range |
| LineRecords.NextRun | trunk/core/src/main/java/org/apache/hama/bsp/LineRecordReader.java:105-128 | with `pos >= end` nothing is read, nothing changes and the result is false; otherwise the key is set and at least one and at most answers+1 reads are made |
| LineRecords.NextRunAdvances | trunk/core/src/main/java/org/apache/hama/bsp/LineRecordReader.java:116 | `pos` advances by exactly the sum of the bytes the run's reads consumed, so it never decreases |
| LineRecords.NextRunKey | trunk/core/src/main/java/org/apache/hama/bsp/LineRecordReader.java:109-118 | the key is a position inside the split where a read started, and a returned line starts at the key and is shorter than the maximum line length |
| LineRecords.NextRunCalls | trunk/core/src/main/java/org/apache/hama/bsp/LineRecordReader.java:111-125 | every `readLine` gets the maximum line length and a positive budget no smaller than it; every line before the last read was non-empty and at least the maximum long, so it was skipped |
| LineRecords.NextRunStops | trunk/core/src/main/java/org/apache/hama/bsp/LineRecordReader.java:113-115 | a run that ends false inside the split stopped on a read that consumed 0 bytes |
| LineRecords.NextFromResumes | trunk/core/src/main/java/org/apache/hama/bsp/LineRecordReader.java:108-127 | the `while` loop, resumed at any iteration, finishes the run that `NextRun` describes |
| LineRecords.LineRecordReader.FromStream | trunk/core/src/main/java/org/apache/hama/bsp/LineRecordReader.java:77-84 | `start == pos == offset`, `end == endOffset`, the given maximum line length |
| LineRecords.LineRecordReader.FromStreamConf | trunk/core/src/main/java/org/apache/hama/bsp/LineRecordReader.java:86-94 | as above, with the maximum line length from the configuration, `Integer.MAX_VALUE` by default |
| LineRecords.LineRecordReader.FromSplit | trunk/core/src/main/java/org/apache/hama/bsp/LineRecordReader.java:45-75 | a compressed split reads to `Long.MAX_VALUE` without skipping; a split at 0 starts at 0; any other split starts one byte early, skips one line with a budget of `min(INT_MAX, length + 1)` and starts after it; `pos == start` |
| LineRecords.ReadLines | trunk/core/src/main/java/org/apache/hama/bsp/LineRecordReader.java:108-127 | the loop of `next`: found, position, key, reader calls and remaining answers agree with `NextRun` from the starting position |
| LineRecords.LineRecordReader.Next | trunk/core/src/main/java/org/apache/hama/bsp/LineRecordReader.java:105-128 | result, new `pos`, key, reader calls and remaining answers are exactly those of `NextRun` from the old position |
| LineRecords.LineRecordReader.GetPos | trunk/core/src/main/java/org/apache/hama/bsp/LineRecordReader.java:141-143 | returns the cursor |
| BspTask.TaskRoundTrip | branches/0.3/src/java/org/apache/hama/bsp/Task.java:105-118 | `readFields` on what `write` emitted restores all four fields, whatever they were before, and leaves the following bytes unread |
| BspTask.TruncatedTaskRejected | branches/0.3/src/java/org/apache/hama/bsp/Task.java:113-118 | every strict prefix of a record is rejected; the fields wholly contained in it are overwritten, the later ones keep their old values |
| BspTask.Task.Empty | branches/0.3/src/java/org/apache/hama/bsp/Task.java:46-49 | fresh empty ids, a null job file and partition 0 |
| BspTask.Task.constructor | branches/0.3/src/java/org/apache/hama/bsp/Task.java:51-57 | stores the four arguments unchanged, a null job file included |
| BspTask.Task.SetJobFile | branches/0.3/src/java/org/apache/hama/bsp/Task.java:62-64 | sets the job file, possibly to null, and changes no other field |
| BspTask.Task.GetTaskId | branches/0.3/src/java/org/apache/hama/bsp/Task.java:70-76 | `getTaskID` and `getTaskAttemptId` always agree |
| BspTask.Task.Write | branches/0.3/src/java/org/apache/hama/bsp/Task.java:105-110 | emits job id, job file, attempt id, 4-byte partition in that order; a null job file fails after the job id |
| BspTask.Task.ReadFields | branches/0.3/src/java/org/apache/hama/bsp/Task.java:113-118 | new fields, stream and outcome are those of the reference decoder `ReadTask` |
| BspTask.Task.Done | branches/0.3/src/java/org/apache/hama/bsp/Task.java:131-133 | reports exactly `(getTaskID(), true)` to the umbilical, appended to its reports |
| BlockEntries.BlockRoundTrip | trunk/src/java/org/apache/hama/io/BlockEntry.java:75-96 | reading back what `write` emitted for equal-length arrays of non-null values gives the same arrays and leaves the following bytes |
| BlockEntries.MismatchedLengthsBreakRoundTrip | trunk/src/java/org/apache/hama/io/BlockEntry.java:89-91 | with arrays of different lengths the round trip fails, so equal lengths must be an invariant |
| BlockEntries.HasNextCorrected | trunk/src/java/org/apache/hama/io/BlockEntry.java:114-122 | the corrected `hasNext` is true exactly when the following `next` stays in bounds |
| BlockEntries.AsWrittenHasNextOverreports | trunk/src/java/org/apache/hama/io/BlockEntry.java:114-116 | the `hasNext` as written is true at every cursor position, and a `next` from there is in bounds except after the last element |
| BlockEntries.BlockEntry.Empty | trunk/src/java/org/apache/hama/io/BlockEntry.java:24-27 | both arrays null |
| BlockEntries.BlockEntry.constructor | trunk/src/java/org/apache/hama/io/BlockEntry.java:63-68 | one-element arrays holding the value (possibly null) and the timestamp; `getTimestamp` returns it |
| BlockEntries.BlockEntry.FromCell | trunk/src/java/org/apache/hama/io/BlockEntry.java:29-34 | one-element arrays holding the cell's value and timestamp |
| BlockEntries.BlockEntry.GetTimestamp | trunk/src/java/org/apache/hama/io/BlockEntry.java:53-55 | succeeds exactly when the timestamps exist and are non-empty, and then returns the first |
| BlockEntries.BlockEntry.Write | trunk/src/java/org/apache/hama/io/BlockEntry.java:88-96 | emits the count, the timestamps as longs, then the values up to the first null one, where it fails; with no null value that is the whole record (`WrittenBytesComplete`); null arrays fail and emit nothing |
| BlockEntries.WriteBlock | trunk/src/java/org/apache/hama/io/BlockEntry.java:89-95 | the count, every timestamp, then the values up to the first null one, and how many values were written |
| BlockEntries.WriteValues | trunk/src/java/org/apache/hama/io/BlockEntry.java:93-95 | the value loop writes the values in index order and stops exactly at the first null one |
| BlockEntries.WrittenBytesComplete | trunk/src/java/org/apache/hama/io/BlockEntry.java:88-96 | when every value is non-null, `write` emits the complete record that the round trip reads back |
| BlockEntries.BlockEntry.ReadFields | trunk/src/java/org/apache/hama/io/BlockEntry.java:75-85 | new arrays, stream and outcome are those of the reference decoder `ReadBlock`: a failure leaves the new arrays with 0 timestamps and null values where reads did not reach; the arrays stay equal in length |
| BlockEntries.ReadInto | trunk/src/java/org/apache/hama/io/BlockEntry.java:79-84 | the two read loops fill the fresh arrays with the timestamps, then the values, and stop at the first failed read, leaving the defaults after it; the result is `ReadArrays` of the stream |
| BlockEntries.ReadNNullable | trunk/src/java/org/apache/hama/io/BlockEntry.java:82-84 | reading values into the array of references reads the byte arrays and makes every value read non-null |
| BlockEntries.FailedReadLeavesNull | trunk/src/java/org/apache/hama/io/BlockEntry.java:75-85 | a `readFields` that allocated the arrays and then failed leaves at least one null value, so a later `write` fails |
| BlockEntries.BlockEntryIterator.constructor | trunk/src/java/org/apache/hama/io/BlockEntry.java:107-111 | the cursor starts at -1 |
| BlockEntries.BlockEntryIterator.HasNext | trunk/src/java/org/apache/hama/io/BlockEntry.java:114-116 | the as-written test `currentValue < values.length`; null arrays fail |
| BlockEntries.BlockEntryIterator.HasNextFixed | trunk/src/java/org/apache/hama/io/BlockEntry.java:114-116 | true exactly when the following `next` returns an element |
| BlockEntries.BlockEntryIterator.Next | trunk/src/java/org/apache/hama/io/BlockEntry.java:119-122 | moves the cursor by one first, then returns a new entry with the value and timestamp there, or fails out of bounds |
| BlockEntries.BlockEntryIterator.Remove | trunk/src/java/org/apache/hama/io/BlockEntry.java:125-127 | always fails as unsupported |
| BlockEntries.BlockEntryIterator.Drain | trunk/src/java/org/apache/hama/io/BlockEntry.java:103-122 | iterating with the corrected `hasNext` returns every value with its timestamp, in index order |
| DataIO.Int32CodecSound | branches/0.3/src/java/org/apache/hama/bsp/Task.java:109 | the 4-byte big-endian int encoding round-trips and rejects truncation |
| DataIO.Int64CodecSound | trunk/src/java/org/apache/hama/io/BlockEntry.java:91 | the 8-byte big-endian long encoding round-trips and rejects truncation |
| DataIO.LengthPrefixedCodecSound | trunk/src/java/org/apache/hama/io/BlockEntry.java:94 | a byte-array encoding with a 4-byte length prefix meets the round-trip assumption made of the byte-array encoder |
| DataIO.ReadWriteAll | trunk/src/java/org/apache/hama/io/BlockEntry.java:79-84 | reading n values back from n values written restores them and leaves what follows |
| DataIO.DataOutput.WriteArray | trunk/src/java/org/apache/hama/io/BlockEntry.java:90-92 | a write loop over an array emits the encodings of its elements in index order |
| DataIO.DataInput.ReadArray | trunk/src/java/org/apache/hama/io/BlockEntry.java:79-84 | a read loop fills the array from index 0 with what `ReadN` decodes, stops at the first failure and leaves the rest |
| JobClient.CompleteIffFinal | tags/hama-parent-0.4.0-incubating-SNAPSHOT/branches/0.3/src/java/org/apache/hama/bsp/BSPJobClient.java:126-138 | `isComplete`'s states are exactly those the job life cycle cannot leave, and a successful job is complete |
| JobClient.ClampSubmitTasks | tags/hama-parent-0.4.0-incubating-SNAPSHOT/branches/0.3/src/java/org/apache/hama/bsp/BSPJobClient.java:300-307 | a count between 1 and the capacity is kept, any other becomes the capacity |
| JobClient.ClampRunJobTasks | tags/hama-parent-0.4.0-incubating-SNAPSHOT/branches/0.3/src/java/org/apache/hama/bsp/BSPJobClient.java:417-422 | 0 or a count above the groom servers becomes their number; other counts, negatives included, are kept |
| JobClient.SubmitClampInRange | tags/hama-parent-0.4.0-incubating-SNAPSHOT/branches/0.3/src/java/org/apache/hama/bsp/BSPJobClient.java:300-307 | on a cluster with capacity, the submitted count is within [1, capacity], and clamping twice changes nothing |
| JobClient.RunJobThenSubmit | tags/hama-parent-0.4.0-incubating-SNAPSHOT/branches/0.3/src/java/org/apache/hama/bsp/BSPJobClient.java:417-424 | both clamps together always submit within capacity; valid counts pass; negatives survive the first clamp and become the capacity; 0 means one task per groom server |
| JobClient.NetworkedJob.constructor | tags/hama-parent-0.4.0-incubating-SNAPSHOT/branches/0.3/src/java/org/apache/hama/bsp/BSPJobClient.java:64-68 | keeps the status, fetches the profile, stamps the time |
| JobClient.NetworkedJob.UpdateStatus | tags/hama-parent-0.4.0-incubating-SNAPSHOT/branches/0.3/src/java/org/apache/hama/bsp/BSPJobClient.java:85-88 | always refetches the status and resets the timestamp, leaving it fresh; without a profile, fails and changes nothing |
| JobClient.NetworkedJob.EnsureFreshStatus | tags/hama-parent-0.4.0-incubating-SNAPSHOT/branches/0.3/src/java/org/apache/hama/bsp/BSPJobClient.java:74-78 | refetches exactly when the status is older than 2000 ms; on success the status is fresh |
| JobClient.NetworkedJob.Progress | tags/hama-parent-0.4.0-incubating-SNAPSHOT/branches/0.3/src/java/org/apache/hama/bsp/BSPJobClient.java:117-121 | with a fresh cache, the cached status's progress and no fetch; with a stale one, the master's current status for the job is fetched and stamped `now`, and its progress returned; no profile or no status fails |
| JobClient.NetworkedJob.IsComplete | tags/hama-parent-0.4.0-incubating-SNAPSHOT/branches/0.3/src/java/org/apache/hama/bsp/BSPJobClient.java:126-130 | always refetches, then true iff the state is SUCCEEDED, FAILED or KILLED |
| JobClient.NetworkedJob.IsSuccessful | tags/hama-parent-0.4.0-incubating-SNAPSHOT/branches/0.3/src/java/org/apache/hama/bsp/BSPJobClient.java:135-138 | always refetches, then true iff the state is SUCCEEDED |
| JobClient.NetworkedJob.GetSuperstepCount | tags/hama-parent-0.4.0-incubating-SNAPSHOT/branches/0.3/src/java/org/apache/hama/bsp/BSPJobClient.java:140-143 | with a fresh cache, the cached status's superstep count and no fetch; with a stale one, the master's current status for the job is fetched and stamped `now`, and its count returned; no profile or no status fails |
| JobClient.NetworkedJob.GetJobState | tags/hama-parent-0.4.0-incubating-SNAPSHOT/branches/0.3/src/java/org/apache/hama/bsp/BSPJobClient.java:160-163 | always refetches, then the master's run state |
| JobClient.NetworkedJob.KillJob | tags/hama-parent-0.4.0-incubating-SNAPSHOT/branches/0.3/src/java/org/apache/hama/bsp/BSPJobClient.java:168-170 | asks the master to kill exactly this job |
| JobClient.BSPJobClient.GetSystemDir | tags/hama-parent-0.4.0-incubating-SNAPSHOT/branches/0.3/src/java/org/apache/hama/bsp/BSPJobClient.java:404-409 | asks the master only on the first call, then returns the cached directory |
| JobClient.BSPJobClient.GetJob | tags/hama-parent-0.4.0-incubating-SNAPSHOT/branches/0.3/src/java/org/apache/hama/bsp/BSPJobClient.java:455-462 | a new handle iff the master knows the job, holding its status, the time and the profile the master has for it |
| JobClient.BSPJobClient.SubmitJobInternal | tags/hama-parent-0.4.0-incubating-SNAPSHOT/branches/0.3/src/java/org/apache/hama/bsp/BSPJobClient.java:282-365 | clamps the task count, asks the master for the system directory only if it is not cached yet, and submits `<sysdir>/<dir>/job.xml` under the new id; fails with "Could not launch job" when the master answers no status, otherwise returns a handle with that status, its profile and the time |
| JobClient.BSPJobClient.RunJob | tags/hama-parent-0.4.0-incubating-SNAPSHOT/branches/0.3/src/java/org/apache/hama/bsp/BSPJobClient.java:411-424 | the submitted count is the groom clamp followed by the capacity clamp, within [1, capacity] on a cluster with capacity; the job file is submitted and the handle returned as `SubmitJobInternal` does |
| JobClient.BSPJobClient.Run | tags/hama-parent-0.4.0-incubating-SNAPSHOT/branches/0.3/src/java/org/apache/hama/bsp/BSPJobClient.java:480-595 | no arguments, a wrong arity or a missing-feature command returns -1; each command is chosen iff its arguments match; any other outcome returns 0 |

## Left out

- MatrixInputFormatBase `getRecordReader`, `setTableRecordReader`, `setRowFilter` and `TableRecordReader`: wrappers around the HBase scanner.
- LineRecordReader `getProgress`: floating point.
- LineRecordReader `close`, codec lookup and file opening: I/O. Compression is a flag of the split constructor.
- LineRecordReader line contents: the reader oracle reports only how many bytes a line consumed, not its text.
- LineRecords.LineRecordReader.Next: does not model the wrap-around of a Java `long` `pos` past `Long.MAX_VALUE`. Positions are unbounded integers.
- Task `toString`, `run`, `createRunner`, `getConf` and `setConf`: abstract or delegating, with no behaviour in this class.
- Task getters other than `getTaskID`: they have no contract of their own. `Task.Fields` shows the constructor's and `SetJobFile`'s effect on them.
- BlockEntry `getValue` and the `SubMatrix` constructor: `SubMatrix` serialisation and the clock.
- BspTask.TruncatedTaskRejected: assumes each id decodes as a whole value, either fully or not at all. In the code, `jobId.readFields` and `taskId.readFields` decode into the existing id objects, which may be shared with the caller that built the task, and a cut inside an id can leave that object partly overwritten. The lemma's claim that a cut inside an id keeps the old id holds only under that assumption.
- BspTask.Task.ReadFields: replaces the ids as values, for the same reason. Updating a shared id object in place, and the aliasing that comes with it, is not modelled.
- BSPJobClient `waitForCompletion`, `monitorAndPrintJob` and the polling loop of `runJob`: `Thread.sleep` loops.
- JobClient.BSPJobClient.RunJob: stops after the submission, because the rest of `runJob` is the polling loop and logging. It is also a method of the client rather than a static method that builds a new client.
- BSPJobClient filesystem staging, UGI login, RPC proxy setup, cluster-status queries, `close`, and the printing of `listJobs`/`listAllJobs`/`listActiveGrooms`/`displayUsage`: I/O and remote calls.
- The random submission directory name is a parameter.
- JobClient.BSPJobClient.Run: returns the chosen `Command` instead of performing it. The `-submit` path calls `submitJob`, which `SubmitJobInternal` models. The `-kill` and `-status` paths use `GetJob` and `NetworkedJob.KillJob`; the status printing is not modelled.
- The encoders of `BSPJobID`, `TaskAttemptID`, `Text` strings and HBase byte arrays: their code is not part of this model. They are `Codec` parameters assumed `Sound`.

## Findings

| source | as written | input that shows it | evidently intended | confidence | as-written member | corrected member |
|---|---|---|---|---|---|---|
| trunk/src/java/org/apache/hama/io/BlockEntry.java:114-116 | `hasNext` tests `currentValue < values.length`, but `next` first increments the cursor and then indexes | an entry with one value after one `next` (cursor 0, length 1), or an empty entry at the start (cursor -1, length 0): `hasNext` is true and the `next` it invites throws ArrayIndexOutOfBoundsException | `currentValue + 1 < values.length` | not executed | BlockEntries.AsWrittenHasNextOverreports | BlockEntries.HasNextCorrected |
