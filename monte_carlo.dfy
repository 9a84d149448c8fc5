/**
 * `run_monte_carlo_simulation` of risks/monte_carlo.py: for each trial, every Open
 * risk draws once to decide whether it occurs and, if it does, draws its cost from
 * the triangular sampler; the trial's total is recorded, and statistics and a
 * histogram are computed from the totals.
 */
module MonteCarlo {
  import opened RiskModel
  import opened Sampler
  import opened Wrappers
  import opened PyBuiltins
  import opened SummaryStatistics
  import opened HistogramData

  /** The fields the simulator reads from a risk record. */
  datatype CostRisk = CostRisk(title: string, status: Status, likelihoodPercentage: real,
                               optimisticCost: real, mostLikelyCost: real, pessimisticCost: real)

  /** The dictionary the simulation returns. */
  datatype SimulationResult = SimulationResult(numSimulations: int, numActiveRisks: nat,
                                               results: seq<real>, statistics: Statistics,
                                               histogram: Histogram)

  const HistogramBins: nat := 20

  /** The running total of a trial and the cursor into the draws. */
  datatype Progress = Progress(total: real, next: nat)

  /** The totals recorded so far and the cursor into the draws. */
  datatype Run = Run(totals: seq<real>, next: nat)

  /** `risks.filter(status='Open')`, order kept. */
  function ActiveRisks(risks: seq<CostRisk>): (active: seq<CostRisk>)
    ensures |active| <= |risks|
  {
    if risks == [] then []
    else
      var prefix := risks[..|risks| - 1];
      var last := risks[|risks| - 1];
      assert risks == prefix + [last];
      ActiveRisks(prefix) + (if last.status == Open then [last] else [])
  }

  /** The filter keeps exactly the Open risks: every other status takes no part in a trial. */
  lemma {:induction false} ActiveRisksAreTheOpenOnes(risks: seq<CostRisk>)
    ensures forall r :: r in ActiveRisks(risks) <==> r in risks && r.status == Open
  {
    if risks != [] {
      var prefix := risks[..|risks| - 1];
      ActiveRisksAreTheOpenOnes(prefix);
      assert risks == prefix + [risks[|risks| - 1]];
    }
  }

  /**
   * The filter works risk by risk and keeps the input order: filtering a concatenation
   * concatenates the filtered parts.
   */
  lemma {:induction false} ActiveRisksAppend(a: seq<CostRisk>, b: seq<CostRisk>)
    ensures ActiveRisks(a + b) == ActiveRisks(a) + ActiveRisks(b)
    decreases |b|
  {
    if b == [] {
      assert a + b == a;
    } else {
      var init, last := b[..|b| - 1], b[|b| - 1];
      ActiveRisksAppend(a, init);
      assert a + b == (a + init) + [last];
      assert (a + b)[..|a + b| - 1] == a + init;
    }
  }

  /** A risk that is not Open, added anywhere in the list, changes nothing the engine sees. */
  lemma {:induction false} NonOpenRiskIgnored(front: seq<CostRisk>, r: CostRisk, back: seq<CostRisk>)
    requires r.status != Open
    ensures ActiveRisks(front + [r] + back) == ActiveRisks(front + back)
  {
    if back == [] {
      assert front + [r] + back == front + [r];
      assert (front + [r])[..|front + [r]| - 1] == front;
      assert front + back == front;
    } else {
      var last := back[|back| - 1];
      var init := back[..|back| - 1];
      NonOpenRiskIgnored(front, r, init);
      assert front + [r] + back == (front + [r] + init) + [last];
      assert (front + [r] + back)[..|front + [r] + back| - 1] == front + [r] + init;
      assert (front + back)[..|front + back| - 1] == front + init;
    }
  }

  /** A risk occurs when its draw falls below its likelihood as a fraction. */
  predicate Occurs(risk: CostRisk, u: real) {
    u < risk.likelihoodPercentage / 100.0
  }

  /**
   * One risk's part of one trial: the occurrence draw, then, if it occurs, the sampled
   * cost, or `mostLikelyCost` when the sampler rejects the three points.
   */
  function Contribution(risk: CostRisk, acc: Progress, rand: Draws, sqrt: real -> real): Progress {
    var u := rand(acc.next);
    var pos := acc.next + 1;
    if Occurs(risk, u) then
      match TriangularDistribution(risk.optimisticCost, risk.mostLikelyCost, risk.pessimisticCost, rand, pos, sqrt)
      case Success(s) => Progress(acc.total + s.cost, s.next)
      case Failure(_) => Progress(acc.total + risk.mostLikelyCost, pos)
    else
      Progress(acc.total, pos)
  }

  /** The risks of one trial, in order, starting from `acc`. */
  function Trial(active: seq<CostRisk>, acc: Progress, rand: Draws, sqrt: real -> real): Progress
  {
    if active == [] then acc
    else Contribution(active[|active| - 1], Trial(active[..|active| - 1], acc, rand, sqrt), rand, sqrt)
  }

  /** `count` trials in a row, each starting from a zero total where the last one stopped drawing. */
  function Trials(active: seq<CostRisk>, count: nat, start: nat, rand: Draws, sqrt: real -> real): Run
  {
    if count == 0 then Run([], start)
    else
      var before := Trials(active, count - 1, start, rand, sqrt);
      var trial := Trial(active, Progress(0.0, before.next), rand, sqrt);
      Run(before.totals + [trial.total], trial.next)
  }

  /** The loop that copies the Open risks into `active_risks`. */
  method CollectActiveRisks(risks: seq<CostRisk>) returns (active: seq<CostRisk>)
    ensures active == ActiveRisks(risks)
  {
    active := [];
    var i := 0;
    while i < |risks|
      invariant 0 <= i <= |risks|
      invariant active == ActiveRisks(risks[..i])
    {
      assert risks[..i + 1][..i] == risks[..i];
      if risks[i].status == Open {
        active := active + [risks[i]];
      }
      i := i + 1;
    }
    assert risks[..|risks|] == risks;
  }

  /** The body of one trial: the inner loop over the active risks, drawing from `start`. */
  method SimulateTrial(active: seq<CostRisk>, rand: Draws, start: nat, sqrt: real -> real)
    returns (total: real, next: nat)
    ensures Progress(total, next) == Trial(active, Progress(0.0, start), rand, sqrt)
  {
    total := 0.0;
    var pos := start;
    var j := 0;
    while j < |active|
      invariant 0 <= j <= |active|
      invariant Progress(total, pos) == Trial(active[..j], Progress(0.0, start), rand, sqrt)
    {
      assert active[..j + 1][..j] == active[..j];
      ghost var before := Progress(total, pos);
      var risk := active[j];
      var u := rand(pos);
      pos := pos + 1;
      if u < risk.likelihoodPercentage / 100.0 {
        var sampled := TriangularDistribution(risk.optimisticCost, risk.mostLikelyCost,
                                              risk.pessimisticCost, rand, pos, sqrt);
        match sampled
        case Success(s) =>
          total := total + s.cost;
          pos := s.next;
        case Failure(_) =>
          total := total + risk.mostLikelyCost;
      }
      assert Progress(total, pos) == Contribution(risk, before, rand, sqrt);
      j := j + 1;
    }
    assert active[..|active|] == active;
    next := pos;
  }

  /**
   * The simulation, with the draws of `random.random()` read from `rand` starting at
   * `start`; `next` is where the next caller of the generator would continue.
   */
  method RunMonteCarloSimulation(risks: seq<CostRisk>, numSimulations: int := 5000, rand: Draws, start: nat,
                                 sqrt: real -> real)
    returns (result: SimulationResult, next: nat)
    ensures result.numSimulations == numSimulations
    ensures result.numActiveRisks == |ActiveRisks(risks)|
    ensures |result.results| == if numSimulations > 0 then numSimulations else 0
    ensures Run(result.results, next)
            == Trials(ActiveRisks(risks), if numSimulations > 0 then numSimulations else 0, start, rand, sqrt)
    ensures result.results == [] ==>
              result.statistics == ZeroStatistics && result.histogram == EmptyHistogram
    ensures result.results != [] ==>
              result.statistics == Summarize(result.results, sqrt)
              && result.histogram == HistogramOf(result.results, HistogramBins)
  {
    var active := CollectActiveRisks(risks);
    var results, pos := RunTrials(active, numSimulations, rand, start, sqrt);
    result := BuildResult(numSimulations, |active|, results, sqrt);
    next := pos;
  }

  /** The outer loop: `numSimulations` trials in a row, none when it is zero or negative. */
  method RunTrials(active: seq<CostRisk>, numSimulations: int, rand: Draws, start: nat, sqrt: real -> real)
    returns (results: seq<real>, next: nat)
    ensures Run(results, next) == Trials(active, if numSimulations > 0 then numSimulations else 0, start, rand, sqrt)
    ensures |results| == if numSimulations > 0 then numSimulations else 0
  {
    results := [];
    next := start;
    var t := 0;
    while t < numSimulations
      invariant 0 <= t && (if numSimulations > 0 then t <= numSimulations else t == 0)
      invariant Run(results, next) == Trials(active, t, start, rand, sqrt)
    {
      var total;
      total, next := SimulateTrial(active, rand, next, sqrt);
      results := results + [total];
      t := t + 1;
    }
    TrialsLength(active, t, start, rand, sqrt);
  }

  /**
   * The returned dictionary: zero statistics and an empty histogram when no trial ran,
   * otherwise the statistics block and a 20-bin histogram of the totals.
   */
  method BuildResult(numSimulations: int, numActiveRisks: nat, results: seq<real>, sqrt: real -> real)
    returns (result: SimulationResult)
    ensures result.numSimulations == numSimulations && result.numActiveRisks == numActiveRisks
    ensures result.results == results
    ensures results == [] ==> result.statistics == ZeroStatistics && result.histogram == EmptyHistogram
    ensures results != [] ==>
              result.statistics == Summarize(results, sqrt)
              && result.histogram == HistogramOf(results, HistogramBins)
  {
    if results == [] {
      return SimulationResult(numSimulations, numActiveRisks, [], ZeroStatistics, EmptyHistogram);
    }
    var histogram := CreateHistogramData(results, HistogramBins);
    result := SimulationResult(numSimulations, numActiveRisks, results, Summarize(results, sqrt), histogram);
  }
  /** One total per trial. */
  lemma {:induction false} TrialsLength(active: seq<CostRisk>, count: nat, start: nat, rand: Draws,
                                        sqrt: real -> real)
    ensures |Trials(active, count, start, rand, sqrt).totals| == count
  {
    if count > 0 {
      TrialsLength(active, count - 1, start, rand, sqrt);
    }
  }

  /** Each risk consumes its occurrence draw and, when it occurs with valid points, one more. */
  lemma ContributionDraws(risk: CostRisk, acc: Progress, rand: Draws, sqrt: real -> real)
    ensures Contribution(risk, acc, rand, sqrt).next == acc.next + 1
            || Contribution(risk, acc, rand, sqrt).next == acc.next + 2
    ensures Contribution(risk, acc, rand, sqrt).next == acc.next + 2
            <==> Occurs(risk, rand(acc.next))
                 && Ordered(risk.optimisticCost, risk.mostLikelyCost, risk.pessimisticCost)
  {
  }

  /** A trial over `n` risks consumes between `n` and `2n` draws. */
  lemma {:induction false} TrialDraws(active: seq<CostRisk>, acc: Progress, rand: Draws, sqrt: real -> real)
    ensures acc.next + |active| <= Trial(active, acc, rand, sqrt).next <= acc.next + 2 * |active|
  {
    if active != [] {
      var init := active[..|active| - 1];
      TrialDraws(init, acc, rand, sqrt);
      ContributionDraws(active[|active| - 1], Trial(init, acc, rand, sqrt), rand, sqrt);
    }
  }

  /** With no Open risk every trial totals zero and no draw is consumed. */
  lemma {:induction false} NoActiveRisks(count: nat, start: nat, rand: Draws, sqrt: real -> real)
    ensures Trials([], count, start, rand, sqrt) == Run(seq(count, _ => 0.0), start)
  {
    if count > 0 {
      NoActiveRisks(count - 1, start, rand, sqrt);
      assert seq(count - 1, _ => 0.0) + [0.0] == seq(count, _ => 0.0);
    }
  }

  /** A risk of likelihood zero (or less) never occurs: its draw is used and nothing is added. */
  lemma NeverOccurs(risk: CostRisk, acc: Progress, rand: Draws, sqrt: real -> real)
    requires UnitDraws(rand)
    requires risk.likelihoodPercentage <= 0.0
    ensures Contribution(risk, acc, rand, sqrt) == Progress(acc.total, acc.next + 1)
  {
    assert 0.0 <= rand(acc.next);
  }

  /**
   * A risk of likelihood 100 (or more) with valid points always occurs: it adds a sampled
   * cost and consumes two draws.
   */
  lemma AlwaysOccurs(risk: CostRisk, acc: Progress, rand: Draws, sqrt: real -> real)
    requires UnitDraws(rand)
    requires 100.0 <= risk.likelihoodPercentage
    requires Ordered(risk.optimisticCost, risk.mostLikelyCost, risk.pessimisticCost)
    ensures Contribution(risk, acc, rand, sqrt)
            == Progress(acc.total + InverseCdf(risk.optimisticCost, risk.mostLikelyCost,
                                               risk.pessimisticCost, rand(acc.next + 1), sqrt),
                        acc.next + 2)
  {
    assert rand(acc.next) < 1.0;
  }

  /** An occurring risk whose three points are out of order adds its most likely cost. */
  lemma InvalidPointsFallBack(risk: CostRisk, acc: Progress, rand: Draws, sqrt: real -> real)
    requires Occurs(risk, rand(acc.next))
    requires !Ordered(risk.optimisticCost, risk.mostLikelyCost, risk.pessimisticCost)
    ensures Contribution(risk, acc, rand, sqrt) == Progress(acc.total + risk.mostLikelyCost, acc.next + 1)
  {
  }

  /** The largest amount a risk can add to a trial: the pessimistic cost, or the fallback. */
  function CostCeiling(risk: CostRisk): real {
    if Ordered(risk.optimisticCost, risk.mostLikelyCost, risk.pessimisticCost) then risk.pessimisticCost
    else risk.mostLikelyCost
  }

  /** The sum of the ceilings of the risks. */
  function CeilingSum(active: seq<CostRisk>): real {
    if active == [] then 0.0 else CeilingSum(active[..|active| - 1]) + CostCeiling(active[|active| - 1])
  }

  predicate NonNegativeCosts(risk: CostRisk) {
    0.0 <= risk.optimisticCost && 0.0 <= risk.mostLikelyCost && 0.0 <= risk.pessimisticCost
  }

  /** A risk adds nothing, or an amount between zero and its ceiling. */
  lemma ContributionBounds(risk: CostRisk, acc: Progress, rand: Draws, sqrt: real -> real)
    requires IsSqrt(sqrt) && UnitDraws(rand)
    requires NonNegativeCosts(risk)
    ensures acc.total <= Contribution(risk, acc, rand, sqrt).total <= acc.total + CostCeiling(risk)
  {
    var o, m, p := risk.optimisticCost, risk.mostLikelyCost, risk.pessimisticCost;
    if Ordered(o, m, p) {
      TriangularInRange(o, m, p, rand, acc.next + 1, sqrt);
    }
  }

  /** A trial's total never goes below zero nor above the sum of the risks' ceilings. */
  lemma {:induction false} TrialBounds(active: seq<CostRisk>, acc: Progress, rand: Draws, sqrt: real -> real)
    requires IsSqrt(sqrt) && UnitDraws(rand)
    requires forall i :: 0 <= i < |active| ==> NonNegativeCosts(active[i])
    ensures acc.total <= Trial(active, acc, rand, sqrt).total <= acc.total + CeilingSum(active)
  {
    if active != [] {
      var init := active[..|active| - 1];
      TrialBounds(init, acc, rand, sqrt);
      ContributionBounds(active[|active| - 1], Trial(init, acc, rand, sqrt), rand, sqrt);
    }
  }

  /** Every recorded total lies between zero and the sum of the ceilings. */
  lemma {:induction false} TotalsBounded(active: seq<CostRisk>, count: nat, start: nat, rand: Draws,
                                         sqrt: real -> real)
    requires IsSqrt(sqrt) && UnitDraws(rand)
    requires forall i :: 0 <= i < |active| ==> NonNegativeCosts(active[i])
    ensures forall t :: 0 <= t < |Trials(active, count, start, rand, sqrt).totals| ==>
              0.0 <= Trials(active, count, start, rand, sqrt).totals[t] <= CeilingSum(active)
  {
    if count > 0 {
      var before := Trials(active, count - 1, start, rand, sqrt);
      TotalsBounded(active, count - 1, start, rand, sqrt);
      TrialBounds(active, Progress(0.0, before.next), rand, sqrt);
    }
  }

  /** A single Open risk that always occurs, with valid points, adds one sample per trial. */
  lemma CertainRiskTrial(risk: CostRisk, acc: Progress, rand: Draws, sqrt: real -> real)
    requires IsSqrt(sqrt) && UnitDraws(rand)
    requires 100.0 <= risk.likelihoodPercentage
    requires Ordered(risk.optimisticCost, risk.mostLikelyCost, risk.pessimisticCost)
    ensures acc.total + risk.optimisticCost <= Trial([risk], acc, rand, sqrt).total
            <= acc.total + risk.pessimisticCost
    ensures risk.optimisticCost == risk.pessimisticCost ==>
              Trial([risk], acc, rand, sqrt).total == acc.total + risk.mostLikelyCost
  {
    assert [risk][..0] == [];
    AlwaysOccurs(risk, acc, rand, sqrt);
    InverseCdfInRange(risk.optimisticCost, risk.mostLikelyCost, risk.pessimisticCost,
                      rand(acc.next + 1), sqrt);
  }

  /**
   * A single Open risk that always occurs, with valid points, totals a value in
   * [optimistic, pessimistic] in every trial.
   */
  lemma {:induction false} CertainRiskTotals(risk: CostRisk, count: nat, start: nat, rand: Draws,
                                             sqrt: real -> real)
    requires IsSqrt(sqrt) && UnitDraws(rand)
    requires 100.0 <= risk.likelihoodPercentage
    requires Ordered(risk.optimisticCost, risk.mostLikelyCost, risk.pessimisticCost)
    ensures forall t :: 0 <= t < |Trials([risk], count, start, rand, sqrt).totals| ==>
              risk.optimisticCost <= Trials([risk], count, start, rand, sqrt).totals[t] <= risk.pessimisticCost
  {
    if count > 0 {
      var before := Trials([risk], count - 1, start, rand, sqrt);
      CertainRiskTotals(risk, count - 1, start, rand, sqrt);
      CertainRiskTrial(risk, Progress(0.0, before.next), rand, sqrt);
    }
  }

  /** A single certain risk whose three points coincide totals exactly that cost in every trial. */
  lemma {:induction false} DegenerateRiskTotals(risk: CostRisk, count: nat, start: nat, rand: Draws,
                                                sqrt: real -> real)
    requires IsSqrt(sqrt) && UnitDraws(rand)
    requires 100.0 <= risk.likelihoodPercentage
    requires risk.optimisticCost == risk.mostLikelyCost == risk.pessimisticCost
    ensures Trials([risk], count, start, rand, sqrt).totals == seq(count, _ => risk.mostLikelyCost)
  {
    if count > 0 {
      var before := Trials([risk], count - 1, start, rand, sqrt);
      DegenerateRiskTotals(risk, count - 1, start, rand, sqrt);
      CertainRiskTrial(risk, Progress(0.0, before.next), rand, sqrt);
      assert seq(count - 1, _ => risk.mostLikelyCost) + [risk.mostLikelyCost]
             == seq(count, _ => risk.mostLikelyCost);
    }
  }
}
