/** Confidence calibration over exact reals: evals/run.ts, confidenceCalibration. */
module Calibration {

  datatype Confidence = High | Medium | Low

  datatype Sample = Sample(confidence: Confidence, relevant: bool)

  datatype Row = Row(total: nat, relevant: nat, probability: real)

  function Probability(c: Confidence): (p: real)
    ensures 0.0 <= p <= 1.0
  {
    match c
    case High => 0.9
    case Medium => 0.6
    case Low => 0.3
  }

  function Square(x: real): real { x * x }

  function Abs(x: real): (r: real)
    ensures r >= 0.0 && (r == x || r == -x)
  {
    if x < 0.0 then -x else x
  }

  function AtLeastOne(n: nat): (r: real)
    ensures r >= 1.0
  {
    if n < 1 then 1.0 else n as real
  }

  function Penalty(s: Sample): real { Square(Probability(s.confidence) - if s.relevant then 1.0 else 0.0) }

  // ---------------------------------------------------------------------------------------------
  // The definitions: mean squared distance, and the weighted gap between confidence and accuracy

  function PenaltySum(samples: seq<Sample>): real {
    if samples == [] then 0.0 else PenaltySum(samples[..|samples| - 1]) + Penalty(samples[|samples| - 1])
  }

  function Brier(samples: seq<Sample>): real { PenaltySum(samples) / AtLeastOne(|samples|) }

  function Count(samples: seq<Sample>, c: Confidence): nat {
    if samples == [] then 0
    else Count(samples[..|samples| - 1], c) + if samples[|samples| - 1].confidence == c then 1 else 0
  }

  function Hits(samples: seq<Sample>, c: Confidence): (r: nat)
    ensures r <= Count(samples, c)
  {
    if samples == [] then 0
    else Hits(samples[..|samples| - 1], c)
         + if samples[|samples| - 1].confidence == c && samples[|samples| - 1].relevant then 1 else 0
  }

  function Gap(total: nat, hits: nat, p: real): real { Abs(p - hits as real / AtLeastOne(total)) }

  function Weighted(n: nat, total: nat, hits: nat, p: real): real {
    total as real / AtLeastOne(n) * Gap(total, hits, p)
  }

  function BinError(samples: seq<Sample>, c: Confidence): real {
    Weighted(|samples|, Count(samples, c), Hits(samples, c), Probability(c))
  }

  function CalibrationError(samples: seq<Sample>): real {
    BinError(samples, High) + BinError(samples, Medium) + BinError(samples, Low)
  }

  // ---------------------------------------------------------------------------------------------
  // The loops

  predicate Tallied(samples: seq<Sample>, rows: map<Confidence, Row>) {
    forall c :: (c in rows <==> Count(samples, c) > 0) &&
                (c in rows ==> rows[c] == Row(Count(samples, c), Hits(samples, c), Probability(c)))
  }

  // Counts the samples of each confidence level, in order of first use, and sums their penalties.
  method Tally(samples: seq<Sample>) returns (rows: map<Confidence, Row>, order: seq<Confidence>, brierTotal: real)
    ensures brierTotal == PenaltySum(samples) && Tallied(samples, rows)
    ensures (forall c :: c in order <==> c in rows) && forall a, b :: 0 <= a < b < |order| ==> order[a] != order[b]
  {
    hide Square;
    rows, order, brierTotal := map[], [], 0.0;
    for i := 0 to |samples|
      invariant brierTotal == PenaltySum(samples[..i]) && Tallied(samples[..i], rows)
      invariant (forall c :: c in order <==> c in rows) && forall a, b :: 0 <= a < b < |order| ==> order[a] != order[b]
    {
      var s := samples[i];
      assert samples[..i + 1][..i] == samples[..i];
      var p := Probability(s.confidence);
      brierTotal := brierTotal + Square(p - if s.relevant then 1.0 else 0.0);
      if s.confidence !in rows { order := order + [s.confidence]; }
      var row := if s.confidence in rows then rows[s.confidence] else Row(0, 0, p);
      row := row.(total := row.total + 1);
      if s.relevant { row := row.(relevant := row.relevant + 1); }
      rows := rows[s.confidence := row];
    }
    assert samples[..|samples|] == samples;
  }

  method Combine(samples: seq<Sample>, rows: map<Confidence, Row>, order: seq<Confidence>) returns (ece: real)
    requires Tallied(samples, rows)
    requires (forall c :: c in order <==> c in rows) && forall a, b :: 0 <= a < b < |order| ==> order[a] != order[b]
    ensures ece == CalibrationError(samples)
  {
    hide Weighted, Count, Hits, Abs, AtLeastOne, AllIncluded, CalibrationError;
    ece := 0.0;
    NoneIncluded(samples);
    for k := 0 to |order|
      invariant ece == AllIncluded(samples, order[..k])
    {
      var row := rows[order[k]];
      var accuracy := row.relevant as real / AtLeastOne(row.total);
      assert row == Row(Count(samples, order[k]), Hits(samples, order[k]), Probability(order[k])) by { assert order[k] in order; }
      assert BinError(samples, order[k]) == Weighted(|samples|, row.total, row.relevant, row.probability);
      var weighted := row.total as real / AtLeastOne(|samples|) * Abs(row.probability - accuracy);
      RowError(|samples|, row.total, row.relevant, row.probability, accuracy, weighted);
      IncludeNext(samples, order, k);
      ece := ece + weighted;
    }
    assert order[..|order|] == order;
    EveryBinIncluded(samples, order);
  }

  // The errors of the bins visited so far.
  function AllIncluded(samples: seq<Sample>, order: seq<Confidence>): real {
    Included(samples, order, High) + Included(samples, order, Medium) + Included(samples, order, Low)
  }

  lemma NoneIncluded(samples: seq<Sample>)
    ensures AllIncluded(samples, []) == 0.0
  {}

  lemma IncludeNext(samples: seq<Sample>, order: seq<Confidence>, k: nat)
    requires k < |order| && forall a, b :: 0 <= a < b < |order| ==> order[a] != order[b]
    ensures AllIncluded(samples, order[..k + 1]) == AllIncluded(samples, order[..k]) + BinError(samples, order[k])
  {
    hide BinError;
    assert forall c :: c in order[..k + 1] <==> c in order[..k] || c == order[k];
    assert order[k] !in order[..k];
  }

  lemma EveryBinIncluded(samples: seq<Sample>, order: seq<Confidence>)
    requires forall c :: c in order <==> Count(samples, c) > 0
    ensures AllIncluded(samples, order) == CalibrationError(samples)
  {
    hide BinError;
    forall c ensures Included(samples, order, c) == BinError(samples, c) {
      if c !in order { EmptyBin(samples, c); }
    }
  }

  lemma RowError(n: nat, total: nat, hits: nat, p: real, accuracy: real, weighted: real)
    requires accuracy == hits as real / AtLeastOne(total)
    requires weighted == total as real / AtLeastOne(n) * Abs(p - accuracy)
    ensures weighted == Weighted(n, total, hits, p)
  {}

  method ConfidenceCalibration(samples: seq<Sample>) returns (ece: real, brier: real)
    ensures ece == CalibrationError(samples) && brier == Brier(samples)
    ensures Square(ece) <= brier
  {
    hide CalibrationError, Square, Tallied;
    var rows, order, brierTotal := Tally(samples);
    ece := Combine(samples, rows, order);
    brier := brierTotal / AtLeastOne(|samples|);
    ErrorBelowBrier(samples);
  }

  function Included(samples: seq<Sample>, order: seq<Confidence>, c: Confidence): real {
    if c in order then BinError(samples, c) else 0.0
  }

  lemma EmptyBin(samples: seq<Sample>, c: Confidence)
    requires Count(samples, c) == 0
    ensures BinError(samples, c) == 0.0
  {
    hide Gap;
    assert 0.0 / AtLeastOne(|samples|) == 0.0;
  }

  // ---------------------------------------------------------------------------------------------
  // The bound

  // The squared penalties of a bin, from its counts.
  function BinPenalty(total: nat, hits: nat, p: real): real
    requires hits <= total
  {
    hits as real * Square(p - 1.0) + (total - hits) as real * Square(p)
  }

  lemma BinPenaltyStep(total: nat, hits: nat, p: real)
    requires hits <= total
    ensures BinPenalty(total + 1, hits + 1, p) == BinPenalty(total, hits, p) + Square(p - 1.0)
    ensures BinPenalty(total + 1, hits, p) == BinPenalty(total, hits, p) + Square(p)
  {
    hide Square;
  }

  function SampleBin(samples: seq<Sample>, c: Confidence): real {
    BinPenalty(Count(samples, c), Hits(samples, c), Probability(c))
  }

  // One more sample adds its penalty to its own bin.
  lemma SampleBinStep(samples: seq<Sample>, c: Confidence)
    requires samples != []
    ensures var init, last := samples[..|samples| - 1], samples[|samples| - 1];
            SampleBin(samples, c) == SampleBin(init, c) + if last.confidence == c then Penalty(last) else 0.0
  {
    hide BinPenalty;
    var init := samples[..|samples| - 1];
    BinPenaltyStep(Count(init, c), Hits(init, c), Probability(c));
  }

  lemma {:induction false} PenaltyByBin(samples: seq<Sample>)
    ensures PenaltySum(samples) == SampleBin(samples, High) + SampleBin(samples, Medium) + SampleBin(samples, Low)
    ensures Count(samples, High) + Count(samples, Medium) + Count(samples, Low) == |samples|
  {
    if samples != [] {
      hide SampleBin, Penalty;
      PenaltyByBin(samples[..|samples| - 1]);
      SampleBinStep(samples, High);
      SampleBinStep(samples, Medium);
      SampleBinStep(samples, Low);
    }
  }

  // A bin's penalties are at least its size times the squared gap: the rest is the variance of its outcomes.
  lemma BinVariance(total: nat, hits: nat, p: real)
    requires hits <= total
    ensures total as real * Square(Gap(total, hits, p)) <= BinPenalty(total, hits, p)
  {
    hide Gap;
    if total > 0 {
      var a := Accuracy(total, hits, p);
      BinBound(total as real, hits as real, a, p);
    }
  }

  // The share of hits, whose distance from p is the gap.
  lemma Accuracy(total: nat, hits: nat, p: real) returns (a: real)
    requires hits <= total && total > 0
    ensures total as real * a == hits as real && 0.0 <= a <= 1.0
    ensures Square(Gap(total, hits, p)) == (p - a) * (p - a)
  {
    a := hits as real / total as real;
    assert a * total as real == hits as real;
  }

  lemma BinBound(n: real, r: real, a: real, p: real)
    requires n >= 0.0 && n * a == r && 0.0 <= a <= 1.0
    ensures n * ((p - a) * (p - a)) <= r * ((p - 1.0) * (p - 1.0)) + (n - r) * (p * p)
  {
    Expand(n, a, p);
    Positive(n, a);
  }

  lemma Expand(n: real, a: real, p: real)
    ensures n * ((p - a) * (p - a)) + n * (a - a * a) == n * a * ((p - 1.0) * (p - 1.0)) + (n - n * a) * (p * p)
  {}

  lemma Product(a: real, b: real)
    requires a >= 0.0 && b >= 0.0
    ensures a * b >= 0.0
  {}

  lemma Positive(n: real, a: real)
    requires n >= 0.0 && 0.0 <= a <= 1.0
    ensures n * (a - a * a) >= 0.0
  {
    assert a - a * a == a * (1.0 - a);
    Product(a, 1.0 - a);
    Product(n, a - a * a);
  }

  // The weighted mean of three numbers, squared, is at most the weighted mean of their squares.
  lemma MeanSquare(n: real, x: real, y: real, z: real, a: real, b: real, c: real)
    requires x >= 0.0 && y >= 0.0 && z >= 0.0 && n == x + y + z
    ensures Square(x * a + y * b + z * c) <= n * (x * Square(a) + y * Square(b) + z * Square(c))
  {
    Crossed(x, y, a, b);
    Crossed(x, z, a, c);
    Crossed(y, z, b, c);
    MeanSquareGap(x, y, z, a, b, c);
  }

  lemma Crossed(x: real, y: real, a: real, b: real)
    requires x >= 0.0 && y >= 0.0
    ensures x * y * Square(a - b) >= 0.0
  {
    assert x * y >= 0.0;
    assert Square(a - b) >= 0.0;
  }

  lemma MeanSquareGap(x: real, y: real, z: real, a: real, b: real, c: real)
    ensures (x + y + z) * (x * Square(a) + y * Square(b) + z * Square(c)) - Square(x * a + y * b + z * c)
            == x * y * Square(a - b) + x * z * Square(a - c) + y * z * Square(b - c)
  {}

  /** The squared calibration error is at most the Brier score. */
  lemma ErrorBelowBrier(samples: seq<Sample>)
    ensures Square(CalibrationError(samples)) <= Brier(samples)
  {
    hide Square, Gap, PenaltySum, Count, Hits, Weighted, Probability, BinPenalty;
    if samples == [] {
      NoError();
    } else {
      var i, j, k := Count(samples, High), Count(samples, Medium), Count(samples, Low);
      var q, r, s := Hits(samples, High), Hits(samples, Medium), Hits(samples, Low);
      PenaltyByBin(samples);
      BinVariance(i, q, Probability(High));
      BinVariance(j, r, Probability(Medium));
      BinVariance(k, s, Probability(Low));
      WeightedParts(|samples|, i, q, Probability(High));
      WeightedParts(|samples|, j, r, Probability(Medium));
      WeightedParts(|samples|, k, s, Probability(Low));
      var n, a, b, c := |samples| as real, Gap(i, q, Probability(High)), Gap(j, r, Probability(Medium)), Gap(k, s, Probability(Low));
      assert Brier(samples) == PenaltySum(samples) / n;
      Bound(n, i as real, j as real, k as real, a, b, c, PenaltySum(samples), CalibrationError(samples));
    }
  }

  lemma Bound(n: real, x: real, y: real, z: real, a: real, b: real, c: real, sum: real, error: real)
    requires n >= 1.0 && n == x + y + z && x >= 0.0 && y >= 0.0 && z >= 0.0
    requires x * Square(a) + y * Square(b) + z * Square(c) <= sum && error == x / n * a + y / n * b + z / n * c
    ensures Square(error) <= sum / n
  {
    hide Square;
    MeanSquare(n, x, y, z, a, b, c);
    Scale(n, x, y, z, a, b, c, sum);
  }

  lemma WeightedParts(n: nat, total: nat, hits: nat, p: real)
    requires n >= 1
    ensures Weighted(n, total, hits, p) == total as real / n as real * Gap(total, hits, p)
  {}

  lemma NoError()
    ensures CalibrationError([]) == 0.0 && Brier([]) == 0.0 && Square(0.0) == 0.0
  {
    EmptyBin([], High);
    EmptyBin([], Medium);
    EmptyBin([], Low);
  }

  lemma Scale(n: real, x: real, y: real, z: real, a: real, b: real, c: real, sum: real)
    requires n >= 1.0 && n == x + y + z && x * Square(a) + y * Square(b) + z * Square(c) <= sum
    requires Square(x * a + y * b + z * c) <= n * (x * Square(a) + y * Square(b) + z * Square(c))
    ensures Square(x / n * a + y / n * b + z / n * c) <= sum / n
  {
    var m := x * a + y * b + z * c;
    var e := x / n * a + y / n * b + z / n * c;
    assert e * n == m by {
      assert x / n * a * n == x * a && y / n * b * n == y * b && z / n * c * n == z * c;
    }
    var q := sum / n;
    assert q * n == sum;
    assert Square(m) <= n * sum;
    assert Square(m) == Square(e) * (n * n);
    assert n * sum == q * (n * n);
    if Square(e) > q {
      assert n * n > 0.0;
      assert (Square(e) - q) * (n * n) > 0.0;
    }
  }
}
