/**
 A model of the rule-based packet classifier: a burst detector that keeps the
 time of the previous packet it saw, flags a packet when it arrives less than
 1/800 of a second after that previous packet and has one of two suspicious
 lengths, and an evaluation loop that counts how many of its verdicts differ
 from the labels of a dataset.
 */
module RuleBased {

  /** Gap (in seconds) below which two consecutive packets form a burst: 1/800 s. */
  const TimeDiffThreshold: real := 0.00125

  /** Packet lengths the rule treats as suspicious. */
  const SuspiciousLengths: seq<int> := [8, 32]

  /** The two columns of a dataset row that the rule reads. */
  datatype Packet = Packet(time: real, length: int)

  /** The only way an evaluation run fails once it has its dataset and labels. */
  datatype RunError = ZeroDivision

  datatype Result<T> = Success(value: T) | Failure(error: RunError)

  predicate IsBurst(prev: real, time: real) {
    time - prev < TimeDiffThreshold
  }

  predicate IsSuspiciousLength(length: int) {
    length in SuspiciousLengths
  }

  /** The verdict of one call, given the time of the previous packet: 1 for attack, 0 for benign. */
  function Verdict(prev: real, time: real, length: int): (r: int)
    ensures r == 0 || r == 1
    ensures r == 1 <==> time < prev + 1.0 / 800.0 && (length == 8 || length == 32)
  {
    if IsBurst(prev, time) && IsSuspiciousLength(length) then 1 else 0
  }

  /**
   The verdicts for a sequence of packets fed one after another, starting from
   the previous-packet time `prev`; each call hands its packet's time on to the next.
   */
  function Predictions(prev: real, packets: seq<Packet>): (r: seq<int>)
    decreases packets
    ensures |r| == |packets|
    ensures forall i :: 0 <= i < |r| ==> r[i] == 0 || r[i] == 1
  {
    if packets == [] then []
    else [Verdict(prev, packets[0].time, packets[0].length)] + Predictions(packets[0].time, packets[1..])
  }

  /** The previous-packet time left behind after feeding `packets`, starting from `prev`. */
  function FinalTime(prev: real, packets: seq<Packet>): (t: real)
    decreases packets
    ensures packets == [] ==> t == prev
    ensures packets != [] ==> t == packets[|packets| - 1].time
  {
    if packets == [] then prev else FinalTime(packets[0].time, packets[1..])
  }

  /** The number of positions where a prediction differs from its label. */
  function Mismatches(predictions: seq<int>, labels: seq<int>): (n: nat)
    requires |predictions| == |labels|
    ensures n <= |predictions|
  {
    if predictions == [] then 0
    else
      var k := |predictions| - 1;
      Mismatches(predictions[..k], labels[..k]) + (if predictions[k] != labels[k] then 1 else 0)
  }

  /** The positions where a prediction differs from its label. */
  function MismatchIndices(predictions: seq<int>, labels: seq<int>): set<nat>
    requires |predictions| == |labels|
  {
    set i: nat | i < |predictions| && predictions[i] != labels[i]
  }

  /** The number of packets predicted as attacks. */
  function Flagged(predictions: seq<int>): (n: nat)
    ensures n <= |predictions|
  {
    if predictions == [] then 0
    else
      var k := |predictions| - 1;
      Flagged(predictions[..k]) + (if predictions[k] == 1 then 1 else 0)
  }

  /** A label array of `n` zeros: every row labelled benign. */
  function Zeros(n: nat): (z: seq<int>)
    ensures |z| == n && forall i :: 0 <= i < n ==> z[i] == 0
  {
    seq(n, _ => 0)
  }

  /**
   The accuracy reported for `incorrect` wrong predictions over `total` rows:
   one minus the error rate, and a division by zero when there are no rows.
   */
  function Accuracy(incorrect: nat, total: nat): (r: Result<real>)
    ensures r.Failure? <==> total == 0
    ensures r.Success? && incorrect <= total ==> 0.0 <= r.value <= 1.0
    ensures r.Success? ==> (r.value == 1.0 <==> incorrect == 0)
    ensures r.Success? ==> (r.value == 0.0 <==> incorrect == total)
  {
    if total == 0 then Failure(ZeroDivision)
    else Success(1.0 - (incorrect as real) / (total as real))
  }

  /** The stateful classifier: the module-level time of the last packet seen. */
  class RuleEngine {
    var lastTime: real

    /** Before any packet has been classified the last time is 0.0. */
    constructor ()
      ensures lastTime == 0.0
    {
      lastTime := 0.0;
    }

    /** Classifies one packet and remembers its time, whatever the verdict. */
    method Rules(packet: Packet) returns (r: int)
      modifies this`lastTime
      ensures r == Verdict(old(lastTime), packet.time, packet.length)
      ensures r == 0 || r == 1
      ensures lastTime == packet.time
    {
      var newTime := packet.time;
      var timeDiff := newTime - lastTime;
      lastTime := newTime;
      var isBurst := timeDiff < TimeDiffThreshold;
      var suspiciousLength := packet.length in SuspiciousLengths;
      if isBurst && suspiciousLength {
        return 1;
      }
      return 0;
    }

    /**
     Classifies every packet in row order and counts the predictions that
     differ from their labels.
     */
    method Evaluate(packets: seq<Packet>, labels: seq<int>) returns (incorrect: nat)
      requires |labels| == |packets|
      modifies this`lastTime
      ensures incorrect == Mismatches(Predictions(old(lastTime), packets), labels)
      ensures incorrect <= |packets|
      ensures lastTime == FinalTime(old(lastTime), packets)
    {
      ghost var start := lastTime;
      incorrect := 0;
      var i := 0;
      while i < |packets|
        invariant 0 <= i <= |packets|
        invariant lastTime == FinalTime(start, packets[..i])
        invariant incorrect == Mismatches(Predictions(start, packets[..i]), labels[..i])
      {
        ghost var done := Predictions(start, packets[..i]);
        var prediction := Rules(packets[i]);
        PredictionsSnoc(start, packets[..i], packets[i]);
        assert packets[..i + 1] == packets[..i] + [packets[i]];
        ghost var next := Predictions(start, packets[..i + 1]);
        assert next == done + [prediction];
        assert next[..i] == done;
        assert labels[..i + 1][..i] == labels[..i];
        if prediction != labels[i] {
          incorrect := incorrect + 1;
        }
        i := i + 1;
      }
      assert packets[..i] == packets;
      assert labels[..i] == labels;
    }

    /**
     The evaluation run: every row is labelled benign, every row is classified
     in order, and the accuracy is one minus the share of wrong predictions.
     */
    method Run(dataset: seq<Packet>) returns (accuracy: Result<real>)
      modifies this`lastTime
      ensures accuracy == Accuracy(Flagged(Predictions(old(lastTime), dataset)), |dataset|)
      ensures accuracy.Failure? <==> dataset == []
      ensures accuracy.Success? ==> 0.0 <= accuracy.value <= 1.0
      ensures lastTime == FinalTime(old(lastTime), dataset)
    {
      var labels := Zeros(|dataset|);
      var incorrect := Evaluate(dataset, labels);
      MismatchesAgainstZeros(Predictions(old(lastTime), dataset));
      accuracy := Accuracy(incorrect, |dataset|);
    }

    /** The predictor handed out is the engine itself, so it shares `lastTime` with every other caller. */
    method CreatePredictor() returns (predictor: RuleEngine)
      ensures predictor == this
    {
      predictor := this;
    }
  }

  /**
   Prediction `i` measures packet `i`'s gap from packet `i - 1`, and the first
   packet's gap from the starting time.
   */
  lemma {:induction false} PredictionAt(prev: real, packets: seq<Packet>, i: nat)
    requires i < |packets|
    decreases packets
    ensures Predictions(prev, packets)[i] ==
      Verdict(if i == 0 then prev else packets[i - 1].time, packets[i].time, packets[i].length)
  {
    if i > 0 {
      PredictionAt(packets[0].time, packets[1..], i - 1);
    }
  }

  /** Feeding one more packet appends one verdict, taken against the time the earlier packets left behind. */
  lemma {:induction false} PredictionsSnoc(prev: real, packets: seq<Packet>, p: Packet)
    decreases packets
    ensures Predictions(prev, packets + [p]) ==
      Predictions(prev, packets) + [Verdict(FinalTime(prev, packets), p.time, p.length)]
  {
    if packets != [] {
      assert (packets + [p])[1..] == packets[1..] + [p];
      PredictionsSnoc(packets[0].time, packets[1..], p);
    }
  }

  /** A packet whose length is neither 8 nor 32 is classified benign, whatever its timing. */
  lemma UnsuspiciousLengthIsBenign(prev: real, packets: seq<Packet>, i: nat)
    requires i < |packets|
    requires packets[i].length != 8 && packets[i].length != 32
    ensures Predictions(prev, packets)[i] == 0
  {
    PredictionAt(prev, packets, i);
  }

  /**
   A packet that arrives no later than the previous one (the first packet: no
   later than the starting time) is a burst, so it is flagged exactly when its
   length is suspicious.
   */
  lemma NonPositiveGapIsBurst(prev: real, packets: seq<Packet>, i: nat)
    requires i < |packets|
    requires packets[i].time <= (if i == 0 then prev else packets[i - 1].time)
    ensures Predictions(prev, packets)[i] == 1 <==> IsSuspiciousLength(packets[i].length)
  {
    PredictionAt(prev, packets, i);
  }

  /** Starting from time 0.0, the value the constructor gives `lastTime`, the first packet's gap is its own time. */
  lemma FirstPacketGap(packets: seq<Packet>)
    requires packets != []
    ensures Predictions(0.0, packets)[0] == 1 <==>
      packets[0].time < TimeDiffThreshold && IsSuspiciousLength(packets[0].length)
  {
  }

  /** The second of two identical packets in a row has gap 0, so it is flagged exactly when its length is suspicious. */
  lemma RepeatedPacket(prev: real, packets: seq<Packet>, i: nat)
    requires 0 < i < |packets|
    requires packets[i] == packets[i - 1]
    ensures Predictions(prev, packets)[i] == if IsSuspiciousLength(packets[i].length) then 1 else 0
  {
    PredictionAt(prev, packets, i);
  }

  /** The mismatch count is the number of positions whose prediction differs from its label. */
  lemma {:induction false} MismatchesCountsIndices(predictions: seq<int>, labels: seq<int>)
    requires |predictions| == |labels|
    ensures Mismatches(predictions, labels) == |MismatchIndices(predictions, labels)|
  {
    if predictions != [] {
      var k := |predictions| - 1;
      MismatchesCountsIndices(predictions[..k], labels[..k]);
      var before := MismatchIndices(predictions[..k], labels[..k]);
      var last: set<nat> := if predictions[k] != labels[k] then {k} else {};
      assert MismatchIndices(predictions, labels) == before + last;
      assert k !in before;
    }
  }

  /** Against all-zero labels, the wrong predictions are exactly the rows predicted as attacks. */
  lemma {:induction false} MismatchesAgainstZeros(predictions: seq<int>)
    requires forall i :: 0 <= i < |predictions| ==> predictions[i] == 0 || predictions[i] == 1
    ensures Mismatches(predictions, Zeros(|predictions|)) == Flagged(predictions)
  {
    if predictions != [] {
      var k := |predictions| - 1;
      assert Zeros(|predictions|)[..k] == Zeros(k);
      MismatchesAgainstZeros(predictions[..k]);
    }
  }

  /** The number of flagged rows is the number of row indices predicted as attacks. */
  lemma FlaggedCountsAttacks(predictions: seq<int>)
    requires forall i :: 0 <= i < |predictions| ==> predictions[i] == 0 || predictions[i] == 1
    ensures Flagged(predictions) == |set i: nat | i < |predictions| && predictions[i] == 1|
  {
    var zeros := Zeros(|predictions|);
    MismatchesAgainstZeros(predictions);
    MismatchesCountsIndices(predictions, zeros);
    assert MismatchIndices(predictions, zeros) == set i: nat | i < |predictions| && predictions[i] == 1;
  }

  /** Ten rows with three wrong predictions give an accuracy of 0.7. */
  lemma AccuracyOfThreeInTen()
    ensures Accuracy(3, 10) == Success(0.7)
  {
  }
}
