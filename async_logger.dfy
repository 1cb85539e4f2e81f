/**
 The asynchronous logger: producers `Write` records into a bounded FIFO
 queue and may request a flush with `Sync`; a single worker takes records
 off the queue, batches them and hands each batch to the file sink as one
 buffer. The goroutine and the channel's blocking are abstracted away: the
 worker runs when `Step` or `Drain` is called, and a blocking send or
 receive becomes the precondition under which it proceeds.
 */
module AsyncLogger {
  import opened Bytes
  import opened Worker

  /** A Go `error` result: `None` is nil. */
  datatype Option<T> = None | Some(value: T)

  class Logger {
    /** `Conf.BufLimit`: a batch is written once it holds more records than this. */
    const bufLimit: int
    /** `Conf.QueueSize`: the capacity of the record queue. */
    const queueSize: nat

    /** Records written by producers and not yet received by the worker, oldest first. */
    var queue: seq<Record>
    /** Set by `Sync`, cleared by the worker after each sink write. */
    var flush: bool
    /** The worker's pending batch. */
    var batch: seq<Record>
    /** Every buffer handed to the file sink, in order. */
    var written: seq<Buffer>

    /** Every record ever queued by `Write`, in order. */
    ghost var enqueued: seq<Record>
    /** Every record the worker has received, in order. */
    ghost var dequeued: seq<Record>
    /** The batch behind each buffer in `written`. */
    ghost var sent: seq<Batch>

    /**
     The logger's invariant: the queue is within its capacity and FIFO
     (what was queued is what was received followed by what waits); the
     sink's buffers followed by the pending batch are exactly the records
     received; each buffer is its batch joined with no separator; and
     batches respect the size limit.
     */
    ghost predicate Valid()
      reads this
    {
      Consistent(bufLimit, queueSize, queue, batch, written, enqueued, dequeued, sent)
    }

    /** `NewLogger`: an empty queue of the given capacity, an empty batch and a clear flag. */
    constructor (bufLimit: int, queueSize: nat)
      requires 0 < queueSize
      ensures Valid()
      ensures this.bufLimit == bufLimit && this.queueSize == queueSize
      ensures queue == [] && batch == [] && !flush && written == []
      ensures enqueued == [] && dequeued == [] && sent == []
    {
      this.bufLimit := bufLimit;
      this.queueSize := queueSize;
      queue, flush, batch, written := [], false, [], [];
      enqueued, dequeued, sent := [], [], [];
    }

    /** Requests a flush: only the flag changes, nothing is written. */
    method Sync() returns (err: Option<string>)
      requires Valid()
      modifies this`flush
      ensures Valid() && flush && err == None
    {
      flush := true;
      err := None;
    }

    /**
     Queues a copy of the caller's bytes at the back of the queue and reports
     its whole length with no error. The queued record is a value: later
     changes to `p` do not reach it.
     */
    method Write(p: array<byte>) returns (n: int, err: Option<string>)
      requires Valid() && |queue| < queueSize
      modifies this
      ensures Valid()
      ensures n == p.Length && err == None
      ensures queue == old(queue) + [p[..]] && enqueued == old(enqueued) + [p[..]]
      ensures batch == old(batch) && flush == old(flush) && written == old(written)
      ensures dequeued == old(dequeued) && sent == old(sent)
    {
      var tmp := new byte[p.Length];
      forall i | 0 <= i < p.Length {
        tmp[i] := p[i];
      }
      assert tmp[..] == p[..];
      queue := queue + [tmp[..]];
      enqueued := enqueued + [tmp[..]];
      n, err := tmp.Length, None;
    }

    /**
     One iteration of the worker loop: receive the oldest queued record and
     do what `Receive` says with it, handing at most one buffer to the sink.
     */
    method Step()
      requires Valid() && queue != []
      modifies this
      ensures Valid()
      ensures queue == old(queue)[1..] && enqueued == old(enqueued)
      ensures dequeued == old(dequeued) + [old(queue)[0]]
      ensures var o := Receive(Worker(old(batch), old(flush)), old(queue)[0], bufLimit);
              && batch == o.next.batch && flush == o.next.flush
              && sent == old(sent) + o.sent && written == old(written) + Buffers(o.sent)
    {
      var msg := queue[0];
      ReceiveKeepsConsistent(bufLimit, queueSize, queue, batch, flush, written, enqueued, dequeued, sent);
      ghost var o := Receive(Worker(batch, flush), msg, bufLimit);
      queue := queue[1..];
      dequeued := dequeued + [msg];
      batch := batch + [msg];
      if flush || |batch| > bufLimit {
        assert o == Outcome(Worker([], false), [batch]);
        written := written + [Join(batch, Empty)];
        sent := sent + [batch];
        batch := [];
        flush := false;
      } else {
        assert o == Outcome(Worker(batch, flush), []);
        assert written + Buffers(o.sent) == written && sent + o.sent == sent;
      }
    }

    /**
     The worker loop, run until the queue is empty (where the source's loop
     blocks): the result is that of `Run` over the records that were queued.
     */
    method Drain()
      requires Valid()
      modifies this
      ensures Valid() && queue == [] && enqueued == old(enqueued)
      ensures dequeued == old(dequeued) + old(queue)
      ensures var t := Run(Worker(old(batch), old(flush)), old(queue), bufLimit);
              && batch == t.final.batch && flush == t.final.flush
              && sent == old(sent) + t.sent && written == old(written) + Buffers(t.sent)
    {
      ghost var start := Worker(batch, flush);
      ghost var done: seq<Record> := [];
      ghost var t := Trace(start, []);
      while queue != []
        invariant Valid() && enqueued == old(enqueued)
        invariant old(queue) == done + queue
        invariant dequeued == old(dequeued) + done
        invariant t == Run(start, done, bufLimit)
        invariant batch == t.final.batch && flush == t.final.flush
        invariant sent == old(sent) + t.sent && written == old(written) + Buffers(t.sent)
        decreases |queue|
      {
        ghost var msg := queue[0];
        ghost var o := Receive(t.final, msg, bufLimit);
        ghost var queue0, sent0, written0, dequeued0 := queue, sent, written, dequeued;
        Step();
        RunSnoc(start, done, msg, bufLimit);
        BuffersAppend(t.sent, o.sent);
        Shift(old(queue), done, queue0, queue);
        Extend(sent, sent0, old(sent), t.sent, o.sent);
        Extend(written, written0, old(written), Buffers(t.sent), Buffers(o.sent));
        Extend(dequeued, dequeued0, old(dequeued), done, [msg]);
        t := Trace(o.next, t.sent + o.sent);
        done := done + [msg];
      }
      assert done + queue == done;
    }
  }

  /**
   The logger's invariant on the values of its fields: the queue is within
   its capacity and FIFO (what was queued is what was received followed by
   what waits); the batches handed to the sink followed by the pending batch
   are exactly the records received; each buffer is its batch joined with no
   separator; and batches respect the size limit.
   */
  ghost predicate Consistent(bufLimit: int, queueSize: nat, queue: seq<Record>, batch: Batch,
                             written: seq<Buffer>, enqueued: seq<Record>, dequeued: seq<Record>,
                             sent: seq<Batch>)
  {
    && 0 < queueSize
    && |queue| <= queueSize
    && enqueued == dequeued + queue
    && Flatten(sent) + batch == dequeued
    && written == Buffers(sent)
    && |batch| <= Limit(bufLimit)
    && (forall i :: 0 <= i < |sent| ==> 1 <= |sent[i]| <= Limit(bufLimit) + 1)
  }

  /** One iteration of the worker loop on the oldest queued record keeps the invariant. */
  lemma ReceiveKeepsConsistent(bufLimit: int, queueSize: nat, queue: seq<Record>, batch: Batch, flush: bool,
                               written: seq<Buffer>, enqueued: seq<Record>, dequeued: seq<Record>,
                               sent: seq<Batch>)
    requires Consistent(bufLimit, queueSize, queue, batch, written, enqueued, dequeued, sent)
    requires queue != []
    ensures var o := Receive(Worker(batch, flush), queue[0], bufLimit);
            Consistent(bufLimit, queueSize, queue[1..], o.next.batch, written + Buffers(o.sent),
                       enqueued, dequeued + [queue[0]], sent + o.sent)
  {
    var msg := queue[0];
    var o := Receive(Worker(batch, flush), msg, bufLimit);
    assert enqueued == (dequeued + [msg]) + queue[1..] by {
      assert queue == [msg] + queue[1..];
    }
    FlattenAppend(sent, o.sent);
    Regroup(Flatten(sent), Flatten(o.sent), o.next.batch, batch, [], dequeued, msg);
    BuffersAppend(sent, o.sent);
    if o.sent != [] {
      assert o.sent == [batch + [msg]] by {
        assert Flatten(o.sent) == o.sent[0] + Flatten(o.sent[1..]);
        assert o.sent[1..] == [];
      }
      assert sent + o.sent == sent + [batch + [msg]];
    } else {
      assert sent + o.sent == sent;
    }
  }

  /** A log that held `base + done` and then grew by `more` holds `base + (done + more)`. */
  lemma Extend<T>(now: seq<T>, mid: seq<T>, base: seq<T>, done: seq<T>, more: seq<T>)
    requires mid == base + done && now == mid + more
    ensures now == base + (done + more)
  {
  }

  /** A queue that held `done + q` and lost its first record holds `(done + [q[0]]) + rest`. */
  lemma Shift<T>(whole: seq<T>, done: seq<T>, q: seq<T>, rest: seq<T>)
    requires whole == done + q && q != [] && rest == q[1..]
    ensures whole == (done + [q[0]]) + rest
  {
    assert q == [q[0]] + rest;
  }

  /** A producer writes the one-byte record `x` through its reused one-byte buffer `p`. */
  method WriteByte(l: Logger, p: array<byte>, x: byte)
    requires l.Valid() && |l.queue| < l.queueSize && p.Length == 1
    modifies l, p
    ensures l.Valid() && l.queue == old(l.queue) + [[x]]
    ensures l.batch == old(l.batch) && l.flush == old(l.flush) && l.written == old(l.written)
  {
    p[0] := x;
    assert p[..] == [x];
    var n, err := l.Write(p);
  }

  /** A fresh logger with `BufLimit = 3` whose queue holds "A", "B", "C", "D", all written through one buffer. */
  method QueuedFour() returns (l: Logger)
    ensures fresh(l) && l.Valid() && l.bufLimit == 3
    ensures l.queue == [[65], [66], [67], [68]] && l.batch == [] && !l.flush && l.written == []
  {
    l := new Logger(3, 10);
    var p := new byte[1];
    WriteByte(l, p, 65);
    WriteByte(l, p, 66);
    WriteByte(l, p, 67);
    WriteByte(l, p, 68);
  }

  /**
   With `BufLimit = 3`, four one-byte records "A", "B", "C", "D" written
   from the same reused buffer reach the sink as the single buffer "ABCD",
   written when the fourth record makes the batch exceed the limit.
   */
  method SizeTriggerScenario() returns (sink: seq<Buffer>)
    ensures sink == [[65, 66, 67, 68]]
  {
    var l := QueuedFour();
    ghost var q := l.queue;
    RunTrigger(Worker([], false), q, 3);
    assert [] + q == q;
    Spelled();
    l.Drain();
    assert l.written == [] + Buffers([q]);
    sink := l.written;
  }

  /** A fresh logger with `BufLimit = 10` whose worker has received "A" and "B" and written nothing. */
  method ReceivedTwo() returns (l: Logger)
    ensures fresh(l) && l.Valid() && l.bufLimit == 10 && l.queueSize == 10
    ensures l.queue == [] && l.batch == [[65], [66]] && !l.flush && l.written == []
  {
    l := new Logger(10, 10);
    var p := new byte[1];
    WriteByte(l, p, 65);
    WriteByte(l, p, 66);
    ghost var q := l.queue;
    RunQuiet(Worker([], false), q, 10);
    assert [] + q == q;
    l.Drain();
  }

  /**
   With `BufLimit = 10`: the worker has received "A" and "B", then `Sync`
   is called. `Sync` alone writes nothing; the next record received, "C",
   carries the whole batch "ABC" to the sink although the batch is far
   below the limit.
   */
  method SyncScenario() returns (afterSync: seq<Buffer>, afterNext: seq<Buffer>)
    ensures afterSync == [] && afterNext == [[65, 66, 67]]
  {
    var l := ReceivedTwo();
    var err := l.Sync();
    afterSync := l.written;
    var p := new byte[1];
    WriteByte(l, p, 67);
    FlagForcesWrite([[65], [66]], [67], 10);
    Spelled();
    l.Step();
    afterNext := l.written;
  }

  /** The buffers the scenarios above spell out, byte by byte. */
  lemma Spelled()
    ensures Buffers([[[65], [66], [67], [68]]]) == [[65, 66, 67, 68]]
    ensures [[65], [66]] + [[67]] == [[65], [66], [67]]
    ensures Buffers([[[65], [66]] + [[67]]]) == [[65, 66, 67]]
  {
    var d: seq<seq<byte>> := [[68]];
    var cd: seq<seq<byte>> := [[67], [68]];
    var bcd: seq<seq<byte>> := [[66], [67], [68]];
    var abcd: seq<seq<byte>> := [[65], [66], [67], [68]];
    assert abcd[1..] == bcd && bcd[1..] == cd && cd[1..] == d && d[1..] == [];
    assert Flatten(d) == [68];
    assert Flatten(cd) == [67, 68];
    assert Flatten(bcd) == [66, 67, 68];
    assert Flatten(abcd) == [65, 66, 67, 68];
    JoinEmptySeparator(abcd);
    var c: seq<seq<byte>> := [[67]];
    var bc: seq<seq<byte>> := [[66], [67]];
    var abc: seq<seq<byte>> := [[65], [66], [67]];
    assert abc[1..] == bc && bc[1..] == c && c[1..] == [];
    assert Flatten(c) == [67];
    assert Flatten(bc) == [66, 67];
    assert Flatten(abc) == [65, 66, 67];
    JoinEmptySeparator(abc);
  }
}
