# asynclogger: the batching writer, in Dafny

`asynclogger` is a Go log sink that decouples log producers from file
writes. Producers call `Logger.Write` with a formatted record. `Write`
copies the record into a bounded channel and returns at once. A single
background goroutine (`Logger.run`) takes records off the channel in order
and appends them to a batch. It hands the batch to the rotating file writer
as one buffer, joined with an empty separator, in two cases: when
`Logger.Sync` has set the `flush` flag, or when the batch holds strictly
more than `Conf.BufLimit` records. After each such write it starts an empty
batch and clears the flag.

This project models that core in three modules:

- `Bytes` (`bytes.dfy`) holds Go bytes, records and buffers. It also holds
  plain concatenation (`Flatten`) and Go's `bytes.Join`, and proves that
  joining with the empty separator is concatenation.
- `Worker` (`worker.dfy`) holds the batching policy as values.
  - `Receive` is one iteration of the worker loop.
  - `Run` is a sequence of iterations.
  - The lemmas cover conservation and order of records and of bytes, the
    bound on pending records, the strict size trigger, and the effect of
    the flag.
- `AsyncLogger` (`async_logger.dfy`) holds the `Logger` class.
  - Its fields: the queue, the flag, the worker's batch, and the buffers
    handed to the sink.
  - Ghost logs record every record queued, every record received, and the
    batch behind every buffer.
  - `Write`, `Sync`, `Step` (one worker iteration) and `Drain` (the worker
    loop until the queue is empty) update these fields in place.
  - Each method's postcondition ties the new state to `Receive` or `Run`
    and keeps the class invariant `Valid`. `Valid` says:
    - the queue is FIFO and within its capacity;
    - the sink's batches followed by the pending batch are exactly the
      records received;
    - each buffer is its batch joined;
    - batches respect the size limit.
  - Three client scenarios come last:
    - four records with `BufLimit = 3` are written as one buffer;
    - `Sync` alone writes nothing;
    - a set flag makes the next record carry the batch to the sink.

The goroutine and the channel are not modelled as concurrency.
- The worker runs when a client calls `Step` or `Drain`.
- A send on a full channel, or a receive on an empty one, would block.
  Each becomes the precondition under which the operation goes ahead:
  `|queue| < queueSize` for `Write` and `queue != []` for `Step`.
- The rotating file writer is the field `written`, the sequence of buffers
  it has received.

Where the code and a natural reading of the design differ, the model
follows the code:
- `Sync` only sets the flag. A logger that has received "A" and "B" with
  `BufLimit = 10` writes nothing on `Sync`. "AB" reaches the sink only
  together with the next record that arrives (`SyncScenario`). If no
  record arrives, nothing is written.
- The record is appended before the trigger is tested, so the worker never
  writes an empty batch. A flag set on an empty batch is honoured by the
  next record, as a one-record buffer. `Worker.RunBounded` proves that
  every batch written holds at least one record.
- The loop has no final flush. Nothing in the code closes the channel, and
  records still in the batch when the program ends are never written.

## Model

| member | source | states |
|---|---|---|
| Bytes.Join | async_logger.go:51 | `bytes.Join` yields every byte of every record plus one separator per gap between neighbouring records |
| Bytes.JoinEmptySeparator | async_logger.go:10 | joining with the empty separator `empty` adds and drops no bytes: it is the plain concatenation of the records, in order |
| Bytes.FlattenAt | async_logger.go:51 | each record of a batch appears intact in the written buffer, right after the bytes of the records before it |
| Bytes.FlattenLength | async_logger.go:51 | the buffer written for a batch is exactly as long as all its records together |
| Worker.Buffers | async_logger.go:51 | the sink receives one buffer per batch handed to it |
| Worker.Receive | async_logger.go:49-54 | one iteration: at most one write; written batch plus pending batch is old batch plus the record; a write happens exactly when the flag is set or the batch already held at least `BufLimit` records; after a write the batch is empty and the flag clear; the flag never survives an iteration; at most `BufLimit` records stay pending |
| Worker.Run | async_logger.go:48-55 | after at least one record, the flag is clear and at most `BufLimit` records are pending |
| Worker.RunConserves | async_logger.go:48-54 | conservation and order: the written batches followed by the pending batch are the starting batch followed by every received record, in order |
| Worker.RunConservesBytes | async_logger.go:48-54 | the same, byte by byte: the bytes written followed by the pending bytes are the starting bytes followed by the bytes of every received record |
| Worker.BuffersFlatten | async_logger.go:51 | the bytes of all written buffers are the bytes of all written batches |
| Worker.RunBounded | async_logger.go:50-52 | from a batch within the limit, every written batch holds between 1 and `BufLimit + 1` records and the pending batch stays within `BufLimit` |
| Worker.RunQuiet | async_logger.go:50 | strict trigger: with the flag clear, while the batch holds at most `BufLimit` records nothing is written and the records accumulate in order |
| Worker.RunTrigger | async_logger.go:50-53 | strict trigger: with the flag clear, the record that makes the batch hold `BufLimit + 1` records writes all of them as one concatenated buffer and leaves nothing pending |
| Worker.FlagForcesWrite | async_logger.go:50-53 | a set flag makes the next record write the whole pending batch with that record, whatever the batch size, and clears the flag |
| AsyncLogger.Logger.constructor | async_logger.go:82-87 | `NewLogger`: an empty queue of capacity `QueueSize`, an empty batch, a clear flag, nothing written, and the invariant |
| AsyncLogger.Logger.Sync | async_logger.go:34-37 | sets the flag and returns nil; it changes nothing else and writes nothing |
| AsyncLogger.Logger.Write | async_logger.go:39-44 | returns `(len(p), nil)` and appends exactly one copy of `p` at the back of the queue; earlier records, batch, flag and sink are unchanged; FIFO order and the capacity bound are kept |
| AsyncLogger.Logger.Step | async_logger.go:48-54 | takes the oldest queued record and changes batch, flag and sink exactly as `Receive` says; keeps the invariant |
| AsyncLogger.Logger.Drain | async_logger.go:46-56 | the worker loop until the queue is empty: receives every queued record in order, and batch, flag and sink end as `Run` over those records says; keeps the invariant |
| AsyncLogger.ReceiveKeepsConsistent | async_logger.go:48-54 | one iteration on the oldest queued record keeps FIFO order, conservation, buffers equal to joined batches, and the size bounds |
| AsyncLogger.SizeTriggerScenario | async_logger.go:39-56 | with `BufLimit = 3`, "A", "B", "C", "D" written through one reused buffer reach the sink as the single buffer "ABCD" |
| AsyncLogger.SyncScenario | async_logger.go:34-54 | with `BufLimit = 10`, after "A" and "B" have been received, `Sync` writes nothing; the next record "C" writes "ABC" |

## Left out

- The goroutine, the channel's blocking and concurrency between producers and the worker. A blocking send or receive is a precondition of `Write` or `Step`, and the worker runs when `Step` or `Drain` is called.
- AsyncLogger.Logger.constructor: requires `QueueSize > 0`. An unbuffered channel (`QueueSize = 0`) is a rendezvous between producer and worker that a queue of values cannot express. A negative size, which makes Go's `make` panic, is excluded by the type `nat`.
- The race on the unsynchronised `flush` field between `Sync` and the worker. The model runs each operation atomically.
- The lumberjack rotating writer is the sequence `written` of buffers it received. Its rotation, file handling and `Rotate` (async_logger.go:70-72) are left out, and so is the write error the worker ignores.
- The zap delegation methods `Info`, `Warn` and `Error` (async_logger.go:58-68) are left out. They format records and pass them to `Write`, which is modelled.
- The `levels` map and the zap and lumberjack configuration in `NewLogger` (async_logger.go:12-15, 74-80, 89-99) are left out. They are configuration of collaborators outside the core.
- Closing the queue and shutdown are left out. The code never closes the channel. Were it closed, `range` would end the loop and drop the pending batch without writing it.
- `Conf.BufLimit` is an unbounded `int`. Go's `int` cannot overflow here because it is only compared with a length.
