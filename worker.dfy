/**
 The batching policy of the background worker, as values: what one
 iteration of its receive loop does to the pending batch and the flush
 flag, and what a run of iterations hands to the file sink.
 */
module Worker {
  import opened Bytes

  /** The records accumulated since the last sink write, oldest first. */
  type Batch = seq<Record>

  /** The worker's state between two iterations: its batch and the flush flag. */
  datatype Worker = Worker(batch: Batch, flush: bool)

  /** What one iteration leaves behind, and the batch it handed to the sink, if any. */
  datatype Outcome = Outcome(next: Worker, sent: seq<Batch>)

  /** What a run of iterations leaves behind, and every batch it handed to the sink. */
  datatype Trace = Trace(final: Worker, sent: seq<Batch>)

  /** The most records that may stay pending once an iteration is over. */
  function Limit(bufLimit: int): nat
  {
    if bufLimit < 0 then 0 else bufLimit
  }

  /** The buffers the sink receives for the given batches: each batch joined with no separator. */
  function Buffers(batches: seq<Batch>): (r: seq<Buffer>)
    ensures |r| == |batches|
  {
    if batches == [] then [] else [Join(batches[0], Empty)] + Buffers(batches[1..])
  }

  /** The buffers of two runs of batches, one after the other. */
  lemma {:induction false} BuffersAppend(a: seq<Batch>, b: seq<Batch>)
    ensures Buffers(a + b) == Buffers(a) + Buffers(b)
  {
    if a == [] {
      assert a + b == b;
    } else {
      assert (a + b)[1..] == a[1..] + b;
      BuffersAppend(a[1..], b);
    }
  }

  /**
   One iteration of the worker loop on the received record `msg`: append it
   to the batch; when the flag is set or the batch now holds strictly more
   than `bufLimit` records, hand the whole batch to the sink and start over
   with an empty batch and a clear flag.
   */
  function Receive(w: Worker, msg: Record, bufLimit: int): (o: Outcome)
    // at most one sink write per record
    ensures |o.sent| <= 1
    // nothing is lost, duplicated or reordered
    ensures Flatten(o.sent) + o.next.batch == w.batch + [msg]
    // the write fires exactly on a set flag or on the (bufLimit+1)-th record
    ensures o.sent != [] <==> w.flush || |w.batch| >= bufLimit
    // after a write the batch is empty and the flag clear
    ensures o.sent != [] ==> o.next == Worker([], false)
    // the flag never survives an iteration
    ensures !o.next.flush
    // whatever stays pending is within the limit
    ensures |o.next.batch| <= Limit(bufLimit)
  {
    var b := w.batch + [msg];
    if w.flush || |b| > bufLimit then
      assert Flatten([b]) == b + Flatten<Record>([]);
      Outcome(Worker([], false), [b])
    else
      Outcome(Worker(b, w.flush), [])
  }

  /** The worker loop over the records `msgs`, received in this order, from the state `w`. */
  function Run(w: Worker, msgs: seq<Record>, bufLimit: int): (t: Trace)
    ensures msgs != [] ==> !t.final.flush && |t.final.batch| <= Limit(bufLimit)
  {
    if msgs == [] then Trace(w, [])
    else
      var t := Run(w, msgs[..|msgs| - 1], bufLimit);
      var o := Receive(t.final, msgs[|msgs| - 1], bufLimit);
      Trace(o.next, t.sent + o.sent)
  }

  /** Running over `msgs + [m]` is running over `msgs`, then one more iteration. */
  lemma RunSnoc(w: Worker, msgs: seq<Record>, m: Record, bufLimit: int)
    ensures var t := Run(w, msgs, bufLimit);
            var o := Receive(t.final, m, bufLimit);
            Run(w, msgs + [m], bufLimit) == Trace(o.next, t.sent + o.sent)
  {
    assert (msgs + [m])[..|msgs + [m]| - 1] == msgs;
  }

  /**
   Conservation and order, record by record: the batches handed to the
   sink, followed by the pending batch, are the batch we started from
   followed by every record received, in order.
   */
  lemma {:induction false} RunConserves(w: Worker, msgs: seq<Record>, bufLimit: int)
    ensures var t := Run(w, msgs, bufLimit);
            Flatten(t.sent) + t.final.batch == w.batch + msgs
  {
    if msgs != [] {
      var init, m := msgs[..|msgs| - 1], msgs[|msgs| - 1];
      var t := Run(w, init, bufLimit);
      var o := Receive(t.final, m, bufLimit);
      RunConserves(w, init, bufLimit);
      FlattenAppend(t.sent, o.sent);
      assert Run(w, msgs, bufLimit) == Trace(o.next, t.sent + o.sent);
      assert msgs == init + [m];
      Regroup(Flatten(t.sent), Flatten(o.sent), o.next.batch, t.final.batch, w.batch, init, m);
    }
  }

  /** Sequence bookkeeping for one more iteration of a conserving run. */
  lemma Regroup<T>(pre: seq<T>, last: seq<T>, next: seq<T>, pending: seq<T>, start: seq<T>, init: seq<T>, m: T)
    requires last + next == pending + [m]
    requires pre + pending == start + init
    ensures (pre + last) + next == start + (init + [m])
  {
    calc {
      (pre + last) + next;
      pre + (last + next);
      pre + (pending + [m]);
      (pre + pending) + [m];
      (start + init) + [m];
      start + (init + [m]);
    }
  }

  /** The bytes the sink receives are the flattened batches. */
  lemma {:induction false} BuffersFlatten(batches: seq<Batch>)
    ensures Flatten(Buffers(batches)) == Flatten(Flatten(batches))
  {
    if batches != [] {
      BuffersFlatten(batches[1..]);
      JoinEmptySeparator(batches[0]);
      FlattenAppend(batches[0], Flatten(batches[1..]));
    }
  }

  /**
   Conservation and order, byte by byte: every byte handed to the sink,
   followed by the bytes still pending, are the bytes pending at the start
   followed by the bytes of every record received, in order.
   */
  lemma RunConservesBytes(w: Worker, msgs: seq<Record>, bufLimit: int)
    ensures var t := Run(w, msgs, bufLimit);
            Flatten(Buffers(t.sent)) + Flatten(t.final.batch) == Flatten(w.batch) + Flatten(msgs)
  {
    var t := Run(w, msgs, bufLimit);
    RunConserves(w, msgs, bufLimit);
    BuffersFlatten(t.sent);
    FlattenAppend(Flatten(t.sent), t.final.batch);
    FlattenAppend(w.batch, msgs);
  }

  /**
   Bound: from a batch within the limit, every batch handed to the sink
   holds between one and `Limit(bufLimit) + 1` records, and the pending
   batch stays within the limit.
   */
  lemma {:induction false} RunBounded(w: Worker, msgs: seq<Record>, bufLimit: int)
    requires |w.batch| <= Limit(bufLimit)
    ensures var t := Run(w, msgs, bufLimit);
            && |t.final.batch| <= Limit(bufLimit)
            && forall i :: 0 <= i < |t.sent| ==> 1 <= |t.sent[i]| <= Limit(bufLimit) + 1
  {
    if msgs != [] {
      var init, m := msgs[..|msgs| - 1], msgs[|msgs| - 1];
      var t := Run(w, init, bufLimit);
      var o := Receive(t.final, m, bufLimit);
      RunBounded(w, init, bufLimit);
      if o.sent != [] {
        assert o.sent[0] == t.final.batch + [m] by {
          assert Flatten(o.sent) == o.sent[0] + Flatten(o.sent[1..]);
          assert o.sent[1..] == [];
        }
      }
      assert forall i :: 0 <= i < |t.sent + o.sent| ==>
        (t.sent + o.sent)[i] == if i < |t.sent| then t.sent[i] else o.sent[i - |t.sent|];
    }
  }

  /**
   Strict size trigger, quiet side: with the flag clear, no sink write
   happens while the batch holds at most `bufLimit` records; the records
   simply accumulate.
   */
  lemma {:induction false} RunQuiet(w: Worker, msgs: seq<Record>, bufLimit: int)
    requires !w.flush && |w.batch| + |msgs| <= bufLimit
    ensures Run(w, msgs, bufLimit) == Trace(Worker(w.batch + msgs, false), [])
  {
    if msgs != [] {
      var init, m := msgs[..|msgs| - 1], msgs[|msgs| - 1];
      RunQuiet(w, init, bufLimit);
      var pending := w.batch + init;
      assert Receive(Worker(pending, false), m, bufLimit) == Outcome(Worker(pending + [m], false), []);
      assert pending + [m] == w.batch + msgs by {
        assert msgs == init + [m];
      }
    }
  }

  /**
   Strict size trigger, firing side: with the flag clear, the record that
   makes the batch hold `bufLimit + 1` records sends the whole batch to the
   sink as one buffer and leaves nothing pending.
   */
  lemma RunTrigger(w: Worker, msgs: seq<Record>, bufLimit: int)
    requires !w.flush && msgs != [] && |w.batch| + |msgs| == bufLimit + 1
    ensures Run(w, msgs, bufLimit) == Trace(Worker([], false), [w.batch + msgs])
    ensures Buffers(Run(w, msgs, bufLimit).sent) == [Flatten(w.batch + msgs)]
  {
    var init, m := msgs[..|msgs| - 1], msgs[|msgs| - 1];
    RunQuiet(w, init, bufLimit);
    var pending := w.batch + init;
    assert pending + [m] == w.batch + msgs by {
      assert msgs == init + [m];
    }
    assert Receive(Worker(pending, false), m, bufLimit) == Outcome(Worker([], false), [w.batch + msgs]);
    JoinEmptySeparator(w.batch + msgs);
  }

  /**
   A set flag takes effect on the next record received, whatever the size
   of the batch: that record and everything pending go to the sink.
   */
  lemma FlagForcesWrite(batch: Batch, msg: Record, bufLimit: int)
    ensures Receive(Worker(batch, true), msg, bufLimit) == Outcome(Worker([], false), [batch + [msg]])
  {
  }
}
