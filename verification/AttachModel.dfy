/**
 The desktop's attach model (crates/multiplex-client/src/attach_model.rs), and its agreement with the
 terminal client's delivery.
 */
module AttachModel {
  import opened Wrappers
  import opened Attach

  datatype Phase =
    | Provisioning
    | Attaching
    | Replaying
    | Live
    | RecordingPaused
    | Offline
    | Dead
    | Gap

  datatype Disposition = Deliverable | Duplicate | GapAt(expected: u64, received: u64)

  datatype State = State(phase: Phase, watermark: u64, records: u64, bytes: u64, lease: bool)

  function SaturatingAdd(a: u64, b: nat): u64 { Min(a + b, U64_MAX) }

  // ---------------------------------------------------------------- the calls as functions

  datatype Call =
    | BeginReplay
    | ApplySnapshot(boundary: u64)
    | Observe(sequence: u64, byteCount: u64)
    | MarkLive(lease: bool, paused: bool)
    | MarkOffline
    | MarkDead

  function Restarted(s: State): State { s.(phase := Replaying, records := 0, bytes := 0) }

  function Classify(watermark: u64, sequence: u64): Disposition {
    if sequence <= watermark then Duplicate
    else if watermark == U64_MAX then GapAt(watermark, sequence)
    else if sequence != watermark + 1 then GapAt(watermark + 1, sequence)
    else Deliverable
  }

  function Step(s: State, c: Call): State {
    match c
    case BeginReplay => Restarted(s)
    case ApplySnapshot(boundary) => if boundary < s.watermark then s else Restarted(s.(watermark := boundary))
    case Observe(sequence, byteCount) =>
      (match Classify(s.watermark, sequence)
       case Duplicate => s
       case GapAt(_, _) => s.(phase := Gap)
       case Deliverable =>
         s.(watermark := sequence, records := SaturatingAdd(s.records, 1), bytes := SaturatingAdd(s.bytes, byteCount)))
    case MarkLive(lease, paused) => s.(lease := lease, phase := if paused then RecordingPaused else Live)
    case MarkOffline => s.(lease := false, phase := Offline)
    case MarkDead => s.(lease := false, phase := Dead)
  }

  /** Nothing lies above the largest sequence, so an output past the watermark always has a successor to compare
      with. */
  lemma NextAlwaysExists(watermark: u64, sequence: u64)
    ensures Classify(watermark, sequence) != Duplicate ==> watermark < U64_MAX
  {
  }

  // ---------------------------------------------------------------- whole runs

  function Run(s: State, calls: seq<Call>): State
    decreases |calls|
  {
    if calls == [] then s else Step(Run(s, calls[..|calls| - 1]), calls[|calls| - 1])
  }

  /** Records and bytes delivered since the counters were last reset, counted without a cap. */
  datatype Totals = Totals(records: nat, bytes: nat)

  function TotalsOf(s: State, calls: seq<Call>, start: Totals): Totals
    decreases |calls|
  {
    if calls == [] then start
    else
      var before := Run(s, calls[..|calls| - 1]);
      var totals := TotalsOf(s, calls[..|calls| - 1], start);
      match calls[|calls| - 1]
      case BeginReplay => Totals(0, 0)
      case ApplySnapshot(boundary) => if boundary < before.watermark then totals else Totals(0, 0)
      case Observe(sequence, byteCount) =>
        if sequence == before.watermark + 1 then Totals(totals.records + 1, totals.bytes + byteCount) else totals
      case _ => totals
  }

  /** Over any run of its methods the watermark only rises, and each counter is its true total capped at the u64
      maximum. */
  lemma {:induction false} RunIsMonotoneAndCounts(s: State, calls: seq<Call>, start: Totals)
    requires s.records == Min(start.records, U64_MAX) && s.bytes == Min(start.bytes, U64_MAX)
    ensures var r := Run(s, calls);
            var t := TotalsOf(s, calls, start);
            && s.watermark <= r.watermark
            && r.records == Min(t.records, U64_MAX)
            && r.bytes == Min(t.bytes, U64_MAX)
    decreases |calls|
  {
    if calls != [] {
      RunIsMonotoneAndCounts(s, calls[..|calls| - 1], start);
    }
  }

  /** A writer lease is only ever held after going live: every way of leaving gives it up. */
  lemma {:induction false} LeaseNeedsLive(s: State, calls: seq<Call>)
    requires !s.lease
    ensures Run(s, calls).lease ==>
              exists i :: 0 <= i < |calls| && calls[i] == MarkLive(true, calls[i].MarkLive? && calls[i].paused)
                          && forall j :: i < j < |calls| ==>
                                !calls[j].MarkOffline? && !calls[j].MarkDead? && !calls[j].MarkLive?
    decreases |calls|
  {
    if calls != [] {
      var n := |calls| - 1;
      LeaseNeedsLive(s, calls[..n]);
      if Run(s, calls).lease && !calls[n].MarkLive? {
        var i :| 0 <= i < n && calls[..n][i] == MarkLive(true, calls[..n][i].MarkLive? && calls[..n][i].paused)
                 && forall j :: i < j < n ==>
                      !calls[..n][j].MarkOffline? && !calls[..n][j].MarkDead? && !calls[..n][j].MarkLive?;
        assert calls[i] == calls[..n][i];
        forall j | i < j < |calls| ensures !calls[j].MarkOffline? && !calls[j].MarkDead? && !calls[j].MarkLive? {
          if j < n { assert calls[j] == calls[..n][j]; }
        }
      } else if Run(s, calls).lease {
        assert calls[n] == MarkLive(true, calls[n].MarkLive? && calls[n].paused);
      }
    }
  }

  /** The phase a call brings the model to, if it decides one, given the watermark it meets. */
  predicate Brings(watermark: u64, c: Call, phase: Phase) {
    match phase
    case Replaying => c.BeginReplay? || (c.ApplySnapshot? && c.boundary >= watermark)
    case Gap => c.Observe? && c.sequence > watermark && c.sequence - watermark > 1
    case Live => c.MarkLive? && !c.paused
    case RecordingPaused => c.MarkLive? && c.paused
    case Offline => c.MarkOffline?
    case Dead => c.MarkDead?
    case _ => false
  }

  ghost predicate Decides(watermark: u64, c: Call) { exists phase :: Brings(watermark, c, phase) }

  /** The i-th call of the run decides a phase; none after it does. */
  ghost predicate LastToDecide(s: State, calls: seq<Call>, i: nat) {
    && i < |calls| && Decides(Run(s, calls[..i]).watermark, calls[i])
    && forall j :: i < j < |calls| ==> !Decides(Run(s, calls[..j]).watermark, calls[j])
  }

  lemma StepBrings(s: State, c: Call)
    ensures if Decides(s.watermark, c) then Brings(s.watermark, c, Step(s, c).phase) else Step(s, c).phase == s.phase
  {
    if c.BeginReplay? { assert Brings(s.watermark, c, Replaying); }
    if c.ApplySnapshot? && c.boundary >= s.watermark { assert Brings(s.watermark, c, Replaying); }
    if c.Observe? && c.sequence > s.watermark && c.sequence - s.watermark > 1 { assert Brings(s.watermark, c, Gap); }
    if c.MarkLive? { assert Brings(s.watermark, c, if c.paused then RecordingPaused else Live); }
    if c.MarkOffline? { assert Brings(s.watermark, c, Offline); }
    if c.MarkDead? { assert Brings(s.watermark, c, Dead); }
  }

  /** Calls that decide no phase leave it. */
  lemma {:induction false} PhaseStays(s: State, calls: seq<Call>, from: nat)
    requires from <= |calls|
    requires forall j :: from <= j < |calls| ==> !Decides(Run(s, calls[..j]).watermark, calls[j])
    ensures Run(s, calls).phase == Run(s, calls[..from]).phase
    decreases |calls|
  {
    if from == |calls| {
      assert calls[..from] == calls;
    } else {
      var n := |calls| - 1;
      hide Step, Brings;
      forall j | from <= j < n ensures !Decides(Run(s, calls[..n][..j]).watermark, calls[..n][j]) {
        assert calls[..n][..j] == calls[..j] && calls[..n][j] == calls[j];
      }
      PhaseStays(s, calls[..n], from);
      assert calls[..n][..from] == calls[..from];
      StepBrings(Run(s, calls[..n]), calls[n]);
    }
  }

  /** In every run the phase is the one the last deciding call brought, and the first one if no call decided. */
  lemma PhaseIsTheLastBrought(s: State, calls: seq<Call>, i: nat)
    requires LastToDecide(s, calls, i)
             || (i == 0 && forall j :: 0 <= j < |calls| ==> !Decides(Run(s, calls[..j]).watermark, calls[j]))
    ensures if LastToDecide(s, calls, i) then Brings(Run(s, calls[..i]).watermark, calls[i], Run(s, calls).phase)
            else Run(s, calls).phase == s.phase
  {
    hide Step, Brings;
    if LastToDecide(s, calls, i) {
      PhaseStays(s, calls, i + 1);
      StepBrings(Run(s, calls[..i]), calls[i]);
      assert calls[..i + 1][..i] == calls[..i];
    } else {
      PhaseStays(s, calls, 0);
      assert calls[..0] == [];
    }
  }

  // ---------------------------------------------------------------- agreement with the terminal client

  /** Feeding a batch to the model until it reports a gap. */
  function Feed(s: State, outputs: seq<Output>): (State, seq<Output>, bool)
    decreases |outputs|
  {
    if outputs == [] then (s, [], false)
    else
      var o := outputs[0];
      var next := Step(s, Observe(o.sequence, Min(|o.bytes|, U64_MAX)));
      match Classify(s.watermark, o.sequence)
      case Duplicate => Feed(next, outputs[1..])
      case GapAt(_, _) => (next, [], true)
      case Deliverable =>
        var rest := Feed(next, outputs[1..]);
        (rest.0, [o] + rest.1, rest.2)
  }

  /** The two implementations deliver the same records, reach the same watermark and stop at the same gap. */
  lemma {:induction false} ModelAgreesWithClient(s: State, outputs: seq<Output>)
    ensures var d := Deliver(s.watermark, outputs);
            var m := Feed(s, outputs);
            && m.0.watermark == d.watermark && m.1 == d.delivered && m.2 == d.gap
            && (d.gap ==> m.0.phase == Gap)
    decreases |outputs|
  {
    if outputs != [] {
      var o := outputs[0];
      ModelAgreesWithClient(Step(s, Observe(o.sequence, Min(|o.bytes|, U64_MAX))), outputs[1..]);
    }
  }

  // ---------------------------------------------------------------- the object

  class GpuiAttachModel {
    var phase: Phase
    var watermark: u64
    var replayedRecords: u64
    var replayedBytes: u64
    var hasWriterLease: bool

    function Current(): State
      reads this
    {
      State(phase, watermark, replayedRecords, replayedBytes, hasWriterLease)
    }

    constructor (watermark: u64)
      ensures Current() == State(Attaching, watermark, 0, 0, false)
    {
      phase := Attaching;
      this.watermark := watermark;
      replayedRecords, replayedBytes, hasWriterLease := 0, 0, false;
    }

    method BeginReplayCall()
      modifies this
      ensures Current() == Step(old(Current()), BeginReplay)
      ensures phase == Replaying && replayedRecords == replayedBytes == 0
      ensures watermark == old(watermark) && hasWriterLease == old(hasWriterLease)
    {
      phase := Replaying;
      replayedRecords := 0;
      replayedBytes := 0;
    }

    method ApplySnapshotCall(boundary: u64) returns (applied: bool)
      modifies this
      ensures Current() == Step(old(Current()), ApplySnapshot(boundary))
      ensures applied <==> old(watermark) <= boundary
      ensures applied ==> phase == Replaying && watermark == boundary && replayedRecords == replayedBytes == 0
      ensures !applied ==> Current() == old(Current())
      ensures hasWriterLease == old(hasWriterLease)
    {
      if boundary < watermark {
        return false;
      }
      watermark := boundary;
      BeginReplayCall();
      return true;
    }

    method ObserveOutput(sequence: u64, byteCount: u64) returns (d: Disposition)
      modifies this
      ensures Current() == Step(old(Current()), Observe(sequence, byteCount))
      ensures d == Classify(old(watermark), sequence)
      ensures d.Deliverable? <==> sequence == old(watermark) + 1
      ensures d.Duplicate? <==> sequence <= old(watermark)
      ensures watermark == if d.Deliverable? then sequence else old(watermark)
      ensures d.GapAt? ==> d == GapAt(old(watermark) + 1, sequence) && old(watermark) + 1 < sequence
      ensures phase == if d.GapAt? then Gap else old(phase)
    {
      if sequence <= watermark {
        return Duplicate;
      }
      if watermark == U64_MAX {
        assert false;
      }
      var expected := watermark + 1;
      if sequence != expected {
        phase := Gap;
        return GapAt(expected, sequence);
      }
      watermark := sequence;
      replayedRecords := SaturatingAdd(replayedRecords, 1);
      replayedBytes := SaturatingAdd(replayedBytes, byteCount);
      return Deliverable;
    }

    method MarkLiveCall(lease: bool, paused: bool)
      modifies this
      ensures Current() == Step(old(Current()), MarkLive(lease, paused))
      ensures hasWriterLease == lease && phase == if paused then RecordingPaused else Live
    {
      hasWriterLease := lease;
      phase := if paused then RecordingPaused else Live;
    }

    method MarkOfflineCall()
      modifies this
      ensures Current() == Step(old(Current()), MarkOffline)
      ensures !hasWriterLease && phase == Offline && watermark == old(watermark)
    {
      hasWriterLease := false;
      phase := Offline;
    }

    method MarkDeadCall()
      modifies this
      ensures Current() == Step(old(Current()), MarkDead)
      ensures !hasWriterLease && phase == Dead && watermark == old(watermark)
    {
      hasWriterLease := false;
      phase := Dead;
    }
  }
}
