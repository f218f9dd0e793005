/**
 Following a Host's output: the terminal client's poll (crates/multiplex-cli/src/local_attach.rs) and the
 desktop's attach model (crates/multiplex-client/src/attach_model.rs). The Host keeps an append-only log of
 records numbered from one; it may resend any of them at any time.
 */
module Attach {
  import opened Wrappers

  datatype Output = Output(sequence: u64, bytes: Bytes)

  datatype ScreenSnapshot = ScreenSnapshot(boundary: u64, bytes: Bytes)

  // ---------------------------------------------------------------- delivery

  /** What one batch of outputs leads to: the records delivered, the new watermark, and whether a gap stopped it. */
  datatype Delivery = Delivery(delivered: seq<Output>, watermark: u64, gap: bool)

  function Deliver(watermark: u64, outputs: seq<Output>): Delivery
    decreases |outputs|
  {
    if outputs == [] then Delivery([], watermark, false)
    else
      var output := outputs[0];
      if output.sequence <= watermark then Deliver(watermark, outputs[1..])
      else if output.sequence != watermark + 1 then Delivery([], watermark, true)
      else
        var rest := Deliver(output.sequence, outputs[1..]);
        rest.(delivered := [output] + rest.delivered)
  }

  /** The highest sequence seen, starting from a watermark. */
  function Reach(watermark: u64, outputs: seq<Output>): u64
    decreases |outputs|
  {
    if outputs == [] then watermark
    else Max(Reach(watermark, outputs[..|outputs| - 1]), outputs[|outputs| - 1].sequence)
  }

  /** No output runs more than one ahead of everything before it. */
  predicate Contiguous(watermark: u64, outputs: seq<Output>) {
    forall i :: 0 <= i < |outputs| ==> outputs[i].sequence <= Reach(watermark, outputs[..i]) + 1
  }

  lemma {:induction false} ReachCons(watermark: u64, outputs: seq<Output>)
    requires outputs != []
    ensures Reach(watermark, outputs) == Reach(Max(watermark, outputs[0].sequence), outputs[1..])
    decreases |outputs|
  {
    var n := |outputs|;
    if n > 1 {
      ReachCons(watermark, outputs[..n - 1]);
      assert outputs[..n - 1][1..] == outputs[1..][..n - 2];
    } else {
      assert outputs[..0] == [];
    }
  }

  lemma ContiguousCons(watermark: u64, outputs: seq<Output>)
    requires outputs != []
    ensures Contiguous(watermark, outputs) <==>
              outputs[0].sequence <= watermark + 1 && Contiguous(Max(watermark, outputs[0].sequence), outputs[1..])
  {
    var later := Max(watermark, outputs[0].sequence);
    forall i | 1 <= i < |outputs|
      ensures Reach(watermark, outputs[..i]) == Reach(later, outputs[1..][..i - 1])
    {
      ReachCons(watermark, outputs[..i]);
      assert outputs[..i][1..] == outputs[1..][..i - 1];
    }
    assert outputs[..0] == [];
    if Contiguous(watermark, outputs) {
      assert outputs[0].sequence <= Reach(watermark, outputs[..0]) + 1;
      forall j | 0 <= j < |outputs[1..]| ensures outputs[1..][j].sequence <= Reach(later, outputs[1..][..j]) + 1 {
        assert outputs[j + 1].sequence <= Reach(watermark, outputs[..j + 1]) + 1;
      }
    }
    if outputs[0].sequence <= watermark + 1 && Contiguous(later, outputs[1..]) {
      forall i | 0 <= i < |outputs| ensures outputs[i].sequence <= Reach(watermark, outputs[..i]) + 1 {
        if i > 0 { assert outputs[1..][i - 1].sequence <= Reach(later, outputs[1..][..i - 1]) + 1; }
      }
    }
  }

  /**
   What delivery means, for any batch whatever: the records delivered are numbered watermark + 1 upward
   without a hole, each one is from the batch, a gap is reported exactly when some output runs ahead of
   all before it, and without a gap the watermark is the highest sequence in the batch.
   */
  lemma {:induction false} DeliveryIsExact(watermark: u64, outputs: seq<Output>)
    ensures var d := Deliver(watermark, outputs);
            && d.watermark == watermark + |d.delivered|
            && (forall i :: 0 <= i < |d.delivered| ==>
                  d.delivered[i].sequence == watermark + 1 + i && d.delivered[i] in outputs)
            && (d.gap <==> !Contiguous(watermark, outputs))
            && (!d.gap ==> d.watermark == Reach(watermark, outputs))
    decreases |outputs|
  {
    if outputs != [] {
      var output := outputs[0];
      ReachCons(watermark, outputs);
      ContiguousCons(watermark, outputs);
      if output.sequence <= watermark {
        DeliveryIsExact(watermark, outputs[1..]);
      } else if output.sequence == watermark + 1 {
        DeliveryIsExact(output.sequence, outputs[1..]);
      }
    }
  }

  // ---------------------------------------------------------------- what the terminal shows

  function Concat(records: seq<Bytes>): Bytes
    decreases |records|
  {
    if records == [] then [] else Concat(records[..|records| - 1]) + records[|records| - 1]
  }

  /** A terminal reads a byte stream; how the stream is cut into writes does not matter. */
  datatype Emulator<!T> = Emulator(blank: T, feed: (T, Bytes) -> T)

  ghost predicate Streaming<T(!new)>(e: Emulator<T>) {
    && (forall t: T :: e.feed(t, []) == t)
    && (forall t: T, a: Bytes, b: Bytes {:trigger e.feed(e.feed(t, a), b)} ::
          e.feed(e.feed(t, a), b) == e.feed(t, a + b))
  }

  /** The screen after the first `k` records of the log. */
  ghost function Replay<T>(e: Emulator<T>, log: seq<Bytes>, k: nat): T
    requires k <= |log|
  {
    e.feed(e.blank, Concat(log[..k]))
  }

  ghost function Shown<T>(e: Emulator<T>, written: Bytes): T { e.feed(e.blank, written) }

  /** Appending to the log does not change what its earlier records show. */
  lemma ReplayIsStable<T>(e: Emulator<T>, log: seq<Bytes>, log': seq<Bytes>, k: nat)
    requires k <= |log| && log <= log'
    ensures Replay(e, log, k) == Replay(e, log', k)
  {
    assert log[..k] == log'[..k];
  }

  ghost predicate FaithfulOutputs(log: seq<Bytes>, outputs: seq<Output>) {
    forall o :: o in outputs ==> 1 <= o.sequence <= |log| && o.bytes == log[o.sequence - 1]
  }

  /** A snapshot repaints any screen into the one its boundary record left behind. */
  ghost predicate FaithfulSnapshot<T(!new)>(e: Emulator<T>, log: seq<Bytes>, s: ScreenSnapshot) {
    s.boundary <= |log| && forall t: T :: e.feed(t, s.bytes) == Replay(e, log, s.boundary)
  }

  /** The bytes of a run of records, one after the other. */
  function Text(outputs: seq<Output>): Bytes
    decreases |outputs|
  {
    if outputs == [] then [] else Text(outputs[..|outputs| - 1]) + outputs[|outputs| - 1].bytes
  }

  lemma TextSnoc(outputs: seq<Output>, o: Output)
    ensures Text(outputs + [o]) == Text(outputs) + o.bytes
  {
    assert (outputs + [o])[..|outputs|] == outputs;
  }

  lemma ConcatSnoc(log: seq<Bytes>, n: nat)
    requires n < |log|
    ensures Concat(log[..n + 1]) == Concat(log[..n]) + log[n]
  {
    assert log[..n + 1][..n] == log[..n];
  }

  lemma FaithfulFront(log: seq<Bytes>, records: seq<Output>, n: nat)
    requires FaithfulOutputs(log, records) && n < |records|
    ensures FaithfulOutputs(log, records[..n])
    ensures 1 <= records[n].sequence <= |log| && records[n].bytes == log[records[n].sequence - 1]
  {
    assert records[n] in records;
  }

  /** Faithful consecutive records spell a slice of the log. */
  lemma {:induction false} TextIsLogSlice(log: seq<Bytes>, watermark: u64, records: seq<Output>)
    requires watermark + |records| <= |log| && FaithfulOutputs(log, records)
    requires forall i :: 0 <= i < |records| ==> records[i].sequence == watermark + 1 + i
    ensures Concat(log[..watermark]) + Text(records) == Concat(log[..watermark + |records|])
    decreases |records|
  {
    hide Concat, FaithfulOutputs;
    if records == [] {
      assert Concat(log[..watermark]) + [] == Concat(log[..watermark]);
    } else {
      var n := |records| - 1;
      FaithfulFront(log, records, n);
      TextIsLogSlice(log, watermark, records[..n]);
      ConcatSnoc(log, watermark + n);
      Regrouped(Concat(log[..watermark]), Text(records[..n]), records[n].bytes);
    }
  }

  lemma Regrouped(a: Bytes, b: Bytes, c: Bytes)
    ensures a + (b + c) == (a + b) + c
  {
  }

  // ---------------------------------------------------------------- the terminal client

  datatype AttachError = Unreachable | SequenceGap | OutputUnavailable | NoState

  /** One attach reply: an optional snapshot, a batch of outputs, and whether a state came with them. */
  datatype Reply = Reply(failed: bool, snapshot: Option<ScreenSnapshot>, outputs: seq<Output>, hasState: bool)

  ghost predicate FaithfulReply<T(!new)>(e: Emulator<T>, log: seq<Bytes>, r: Reply) {
    FaithfulOutputs(log, r.outputs) && (r.snapshot.Some? ==> FaithfulSnapshot(e, log, r.snapshot.value))
  }

  /** The screen shows the log exactly up to the watermark. */
  ghost predicate InStep<T>(e: Emulator<T>, log: seq<Bytes>, written: Bytes, watermark: nat) {
    watermark <= |log| && Shown(e, written) == Replay(e, log, watermark)
  }

  /** Writing any leading part of what a batch delivers keeps the screen in step with the watermark it earns. */
  lemma BatchInStep<T(!new)>(e: Emulator<T>, log: seq<Bytes>, watermark: u64, outputs: seq<Output>,
                             done: seq<Output>, written: Bytes)
    requires Streaming(e) && InStep(e, log, written, watermark) && FaithfulOutputs(log, outputs)
    requires done <= Deliver(watermark, outputs).delivered
    ensures InStep(e, log, written + Text(done), watermark + |done|)
  {
    DeliveryIsExact(watermark, outputs);
    if done != [] { assert done[|done| - 1] in outputs; }
    assert FaithfulOutputs(log, done);
    TextIsLogSlice(log, watermark, done);
    assert e.feed(e.feed(e.blank, written), Text(done))
      == e.feed(e.feed(e.blank, Concat(log[..watermark])), Text(done));
  }

  /** `done` has been delivered and outputs[index..] are still to come. */
  ghost predicate Pending(start: u64, outputs: seq<Output>, done: seq<Output>, watermark: u64, index: nat) {
    && index <= |outputs|
    && watermark == start + |done|
    && var rest := Deliver(watermark, outputs[index..]);
       Deliver(start, outputs) == Delivery(done + rest.delivered, rest.watermark, rest.gap)
  }

  lemma PendingStart(start: u64, outputs: seq<Output>)
    ensures Pending(start, outputs, [], start, 0)
  {
    assert outputs[0..] == outputs;
    assert [] + Deliver(start, outputs).delivered == Deliver(start, outputs).delivered;
  }

  lemma PendingStep(start: u64, outputs: seq<Output>, done: seq<Output>, watermark: u64, index: nat)
    requires Pending(start, outputs, done, watermark, index) && index < |outputs|
    ensures var o := outputs[index];
            && (o.sequence <= watermark ==> Pending(start, outputs, done, watermark, index + 1))
            && (o.sequence > watermark + 1 ==> Deliver(start, outputs) == Delivery(done, watermark, true))
            && (o.sequence == watermark + 1 ==>
                  && Pending(start, outputs, done + [o], o.sequence, index + 1)
                  && done + [o] <= Deliver(start, outputs).delivered)
  {
    var o := outputs[index];
    assert outputs[index..][0] == o && outputs[index..][1..] == outputs[index + 1..];
    var later := Deliver(if o.sequence == watermark + 1 then o.sequence else watermark, outputs[index + 1..]);
    assert done + ([o] + later.delivered) == (done + [o]) + later.delivered;
    assert done + [] == done;
  }

  lemma PendingEnd(start: u64, outputs: seq<Output>, done: seq<Output>, watermark: u64)
    requires Pending(start, outputs, done, watermark, |outputs|)
    ensures Deliver(start, outputs) == Delivery(done, watermark, false) && watermark == start + |done|
  {
    assert outputs[|outputs|..] == [];
    assert done + [] == done;
  }

  lemma PendingCount(start: u64, outputs: seq<Output>, done: seq<Output>, watermark: u64, index: nat)
    requires Pending(start, outputs, done, watermark, index)
    ensures watermark == start + |done|
  {
  }

  lemma TextOfNothing()
    ensures Text([]) == []
  {
  }

  /** Where a poll takes up: at the snapshot's boundary if the reply has one. */
  function TakesUp(watermark: u64, reply: Reply): u64 {
    if reply.snapshot.Some? then reply.snapshot.value.boundary else watermark
  }

  /** What a poll must answer and where it must leave the watermark, unless a write fails. */
  function Polled(watermark: u64, reply: Reply): (Result<(), AttachError>, u64) {
    if reply.failed then (Failure(Unreachable), watermark)
    else if TakesUp(watermark, reply) < watermark then (Failure(SequenceGap), watermark)
    else
      var d := Deliver(TakesUp(watermark, reply), reply.outputs);
      (if d.gap then Failure(SequenceGap) else if reply.hasState then Success(()) else Failure(NoState), d.watermark)
  }

  /** What it must have written: the snapshot, and then every record it delivers. */
  function PolledText(watermark: u64, reply: Reply): Bytes {
    if reply.failed || TakesUp(watermark, reply) < watermark then []
    else
      (if reply.snapshot.Some? then reply.snapshot.value.bytes else [])
      + Text(Deliver(TakesUp(watermark, reply), reply.outputs).delivered)
  }

  /** Poll after poll, up to the first that fails. */
  function Followed(watermark: u64, replies: seq<Reply>): (Result<(), AttachError>, u64)
    decreases |replies|
  {
    if replies == [] then (Success(()), watermark)
    else
      var before := Followed(watermark, replies[..|replies| - 1]);
      if before.0.Failure? then before else Polled(before.1, replies[|replies| - 1])
  }

  /** A failed poll is the last. */
  lemma {:induction false} FollowedStops(watermark: u64, replies: seq<Reply>, k: nat)
    requires k <= |replies| && Followed(watermark, replies[..k]).0.Failure?
    ensures Followed(watermark, replies) == Followed(watermark, replies[..k])
    decreases |replies|
  {
    if k < |replies| {
      assert replies[..|replies| - 1][..k] == replies[..k];
      FollowedStops(watermark, replies[..|replies| - 1], k);
    } else {
      assert replies[..k] == replies;
    }
  }

  lemma FollowedNothing(watermark: u64, replies: seq<Reply>)
    ensures Followed(watermark, replies[..0]) == (Success(()), watermark)
  {
  }

  lemma FollowedSnoc(watermark: u64, replies: seq<Reply>, k: nat)
    requires k < |replies|
    ensures var before := Followed(watermark, replies[..k]);
            Followed(watermark, replies[..k + 1]) == if before.0.Failure? then before else Polled(before.1, replies[k])
  {
    assert replies[..k + 1][..k] == replies[..k];
    hide Polled;
  }

  lemma BlankInStep<T>(e: Emulator<T>, log: seq<Bytes>)
    ensures InStep(e, log, [], 0)
  {
    assert log[..0] == [];
  }

  lemma StaysInStep<T>(e: Emulator<T>, log: seq<Bytes>, log': seq<Bytes>, written: Bytes, watermark: nat)
    requires InStep(e, log, written, watermark) && log <= log'
    ensures InStep(e, log', written, watermark)
  {
    ReplayIsStable(e, log, log', watermark);
  }

  class TerminalClient {
    var written: Bytes
    var watermark: u64

    constructor ()
      ensures written == [] && watermark == 0
    {
      written, watermark := [], 0;
    }

    /** A write to the terminal: all of it, or after a failure some prefix of it. */
    method WriteAll(bytes: Bytes) returns (ok: bool)
      modifies this`written
      ensures ok ==> written == old(written) + bytes
      ensures !ok ==> old(written) <= written <= old(written) + bytes
    {
      ok := *;
      if ok {
        written := written + bytes;
      } else {
        var n :| 0 <= n <= |bytes|;
        written := written + bytes[..n];
        assert old(written) + bytes == written + bytes[n..];
      }
    }

    method WriteOutputs(outputs: seq<Output>) returns (r: Result<(), AttachError>)
      modifies this
      ensures r == Success(()) || r == Failure(SequenceGap) || r == Failure(OutputUnavailable)
      ensures r != Failure(OutputUnavailable) ==>
                var d := Deliver(old(watermark), outputs);
                && (r.Failure? <==> d.gap)
                && watermark == d.watermark == old(watermark) + |d.delivered|
                && written == old(written) + Text(d.delivered)
      // after a failed write the watermark still counts only records written in full
      ensures r == Failure(OutputUnavailable) ==>
                exists done :: done <= Deliver(old(watermark), outputs).delivered
                               && watermark == old(watermark) + |done|
                               && old(written) + Text(done) <= written
    {
      hide Deliver, Text, Pending;
      ghost var start, done: seq<Output> := watermark, [];
      PendingStart(start, outputs);
      TextOfNothing();
      var index := 0;
      while index < |outputs|
        invariant index <= |outputs| && Pending(start, outputs, done, watermark, index)
        invariant done <= Deliver(start, outputs).delivered
        invariant written == old(written) + Text(done)
      {
        var output := outputs[index];
        PendingCount(start, outputs, done, watermark, index);
        PendingStep(start, outputs, done, watermark, index);
        index := index + 1;
        if output.sequence <= watermark {
          continue;
        }
        if watermark == U64_MAX || output.sequence != watermark + 1 {
          return Failure(SequenceGap);
        }
        var ok := WriteAll(output.bytes);
        if !ok {
          return Failure(OutputUnavailable);
        }
        TextSnoc(done, output);
        watermark := output.sequence;
        done := done + [output];
      }
      PendingEnd(start, outputs, done, watermark);
      var flushed: bool := *;
      if !flushed {
        return Failure(OutputUnavailable);
      }
      return Success(());
    }

    /**
     One poll. Whatever it answers, the watermark never falls; unless writing itself failed, the screen shows
     the log exactly up to the watermark, also when the poll ends in a gap; and a failed write leaves the
     watermark at a point the screen really reached.
     */
    method PollOutput<T(!new)>(reply: Reply, ghost e: Emulator<T>, ghost log: seq<Bytes>)
      returns (r: Result<(), AttachError>)
      requires Streaming(e) && FaithfulReply(e, log, reply)
      requires InStep(e, log, written, watermark)
      modifies this
      ensures r != Failure(OutputUnavailable) ==>
                && (r, watermark) == Polled(old(watermark), reply)
                && written == old(written) + PolledText(old(watermark), reply)
      ensures watermark >= old(watermark)
      ensures r != Failure(OutputUnavailable) ==> InStep(e, log, written, watermark)
      ensures r == Failure(OutputUnavailable) ==>
                exists reached :: reached <= written && InStep(e, log, reached, watermark)
    {
      hide InStep, FaithfulSnapshot, Streaming, Deliver, Text;
      if reply.failed {
        return Failure(Unreachable);
      }
      if reply.snapshot.Some? {
        var snapshot := reply.snapshot.value;
        if snapshot.boundary < watermark {
          return Failure(SequenceGap);
        }
        var ok := WriteAll(snapshot.bytes);
        var flushed: bool := *;
        if !ok || !flushed {
          assert old(written) <= written;
          return Failure(OutputUnavailable);
        }
        SnapshotInStep(e, log, old(written), snapshot);
        watermark := snapshot.boundary;
      }
      ghost var before, from := written, watermark;
      assert from == TakesUp(old(watermark), reply);
      r := WriteOutputs(reply.outputs);
      if r == Failure(OutputUnavailable) {
        ghost var done :| done <= Deliver(from, reply.outputs).delivered
                          && watermark == from + |done| && before + Text(done) <= written;
        BatchInStep(e, log, from, reply.outputs, done, before);
        return;
      }
      BatchInStep(e, log, from, reply.outputs, Deliver(from, reply.outputs).delivered, before);
      if r.Success? && !reply.hasState {
        r := Failure(NoState);
      }
    }

    /** The attach loop: poll after poll over a growing log, until one fails. */
    method Follow<T(!new)>(replies: seq<Reply>, ghost e: Emulator<T>, ghost logs: seq<seq<Bytes>>)
      returns (r: Result<(), AttachError>)
      requires Streaming(e) && |logs| == |replies| && replies != []
      requires forall i :: 0 <= i < |replies| ==> FaithfulReply(e, logs[i], replies[i])
      requires forall i :: 0 < i < |logs| ==> logs[i - 1] <= logs[i]
      requires written == [] && watermark == 0
      modifies this
      ensures r != Failure(OutputUnavailable) ==>
                && (r, watermark) == Followed(0, replies)
                && exists i :: 0 <= i < |logs| && InStep(e, logs[i], written, watermark)
    {
      hide InStep, Followed, Polled, PolledText, FaithfulReply, Streaming;
      r := Success(());
      var index := 0;
      BlankInStep(e, logs[0]);
      FollowedNothing(0, replies);
      while index < |replies|
        invariant 0 <= index <= |replies|
        invariant index < |replies| ==> InStep(e, logs[index], written, watermark)
        invariant index > 0 ==> InStep(e, logs[index - 1], written, watermark)
        invariant r.Success? && (r, watermark) == Followed(0, replies[..index])
      {
        FollowedSnoc(0, replies, index);
        r := PollOutput(replies[index], e, logs[index]);
        if r.Failure? {
          if r != Failure(OutputUnavailable) { FollowedStops(0, replies, index + 1); }
          return;
        }
        if index + 1 < |replies| {
          StaysInStep(e, logs[index], logs[index + 1], written, watermark);
        }
        index := index + 1;
      }
      assert replies[..index] == replies;
    }
  }

  lemma SnapshotInStep<T(!new)>(e: Emulator<T>, log: seq<Bytes>, written: Bytes, snapshot: ScreenSnapshot)
    requires Streaming(e) && FaithfulSnapshot(e, log, snapshot)
    ensures InStep(e, log, written + snapshot.bytes, snapshot.boundary)
  {
    assert e.feed(e.feed(e.blank, written), snapshot.bytes) == Replay(e, log, snapshot.boundary);
  }
}
