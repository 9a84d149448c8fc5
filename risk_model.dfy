/**
 * The risk record of the register: its choice domains, its defaults, and the two
 * derived properties `risk_score` and `risk_level`.
 */
module RiskModel {

  datatype Status = Open | Mitigated | Closed

  /** The three risk levels, ordered Low < Medium < High by `Rank`. */
  datatype Level = Low | Medium | High

  const LikelihoodChoices: seq<(int, string)> := [(1, "Low"), (2, "Medium"), (3, "High")]
  const ImpactChoices: seq<(int, string)> := [(1, "Low"), (2, "Medium"), (3, "High")]
  const CategoryChoices: seq<string> := ["Technical", "Financial", "Operational", "Legal"]
  const StatusChoices: seq<(Status, string)> := [(Open, "Open"), (Mitigated, "Mitigated"), (Closed, "Closed")]

  const DefaultLikelihood: int := 1
  const DefaultImpact: int := 1
  const DefaultStatus: Status := Open

  /** Score thresholds of `risk_level`. */
  const HighThreshold: int := 6
  const MediumThreshold: int := 3

  /** The fields of a risk that the scoring reads or the defaults set. */
  datatype Risk = Risk(title: string, description: string, likelihood: int, impact: int,
                       owner: string, status: Status)

  predicate IsChoice(v: int, choices: seq<(int, string)>) {
    exists k :: 0 <= k < |choices| && choices[k].0 == v
  }

  /** A risk created with only a title: every other field takes its declared default. */
  function NewRisk(title: string): Risk {
    Risk(title, "", DefaultLikelihood, DefaultImpact, "", DefaultStatus)
  }

  function RiskScore(r: Risk): int {
    r.likelihood * r.impact
  }

  /** The if/elif chain of `risk_level`, stated for every score. */
  function LevelOfScore(score: int): (l: Level)
    ensures l == High <==> score >= HighThreshold
    ensures l == Medium <==> MediumThreshold <= score < HighThreshold
    ensures l == Low <==> score < MediumThreshold
  {
    if score >= HighThreshold then High
    else if score >= MediumThreshold then Medium
    else Low
  }

  function RiskLevel(r: Risk): Level {
    LevelOfScore(RiskScore(r))
  }

  /** The label the property returns. */
  function LevelLabel(l: Level): string {
    match l
    case High => "High"
    case Medium => "Medium"
    case Low => "Low"
  }

  function StatusLabel(s: Status): string {
    match s
    case Open => "Open"
    case Mitigated => "Mitigated"
    case Closed => "Closed"
  }

  function Rank(l: Level): nat {
    match l
    case Low => 0
    case Medium => 1
    case High => 2
  }

  /** Each level's label is one of the three level names of the choice lists. */
  lemma LevelLabelIsChoiceName(r: Risk)
    ensures LevelLabel(RiskLevel(r)) in ["Low", "Medium", "High"]
    ensures exists k :: 0 <= k < |LikelihoodChoices| && LikelihoodChoices[k].1 == LevelLabel(RiskLevel(r))
  {
    match RiskLevel(r)
    case Low => assert LikelihoodChoices[0].1 == "Low";
    case Medium => assert LikelihoodChoices[1].1 == "Medium";
    case High => assert LikelihoodChoices[2].1 == "High";
  }

  /** With likelihood and impact taken from their choice lists the score is one of six values. */
  lemma ScoreOfChoices(r: Risk)
    requires IsChoice(r.likelihood, LikelihoodChoices)
    requires IsChoice(r.impact, ImpactChoices)
    ensures RiskScore(r) in {1, 2, 3, 4, 6, 9}
    ensures RiskLevel(r) == High <==> RiskScore(r) in {6, 9}
    ensures RiskLevel(r) == Medium <==> RiskScore(r) in {3, 4}
    ensures RiskLevel(r) == Low <==> RiskScore(r) in {1, 2}
  {
    var k :| 0 <= k < |LikelihoodChoices| && LikelihoodChoices[k].0 == r.likelihood;
    var j :| 0 <= j < |ImpactChoices| && ImpactChoices[j].0 == r.impact;
    assert r.likelihood in {1, 2, 3} && r.impact in {1, 2, 3};
  }

  /** The scores the risk tests pin down, with the levels they expect. */
  lemma ScoreExamples(r: Risk)
    ensures r.likelihood == 2 && r.impact == 3 ==> RiskScore(r) == 6 && RiskLevel(r) == High
    ensures r.likelihood == 3 && r.impact == 3 ==> RiskScore(r) == 9 && RiskLevel(r) == High
    ensures r.likelihood == 1 && r.impact == 3 ==> RiskScore(r) == 3 && RiskLevel(r) == Medium
    ensures r.likelihood == 1 && r.impact == 1 ==> RiskScore(r) == 1 && RiskLevel(r) == Low
  {
  }

  /** The three seeded risks of the project tests: 3×3, 2×2 and 1×1, one per level. */
  lemma SeededRiskExamples(r: Risk)
    ensures r.likelihood == 3 && r.impact == 3 ==> RiskScore(r) == 9 && LevelLabel(RiskLevel(r)) == "High"
    ensures r.likelihood == 2 && r.impact == 2 ==> RiskScore(r) == 4 && LevelLabel(RiskLevel(r)) == "Medium"
    ensures r.likelihood == 1 && r.impact == 1 ==> RiskScore(r) == 1 && LevelLabel(RiskLevel(r)) == "Low"
  {
  }

  /** Every status is offered by the status choices under its own label, and nothing else is. */
  lemma StatusChoicesMatchLabels(s: Status)
    ensures (s, StatusLabel(s)) in StatusChoices
    ensures forall k :: 0 <= k < |StatusChoices| ==> StatusChoices[k].1 == StatusLabel(StatusChoices[k].0)
    ensures |StatusChoices| == 3
  {
    match s
    case Open => assert StatusChoices[0] == (Open, "Open");
    case Mitigated => assert StatusChoices[1] == (Mitigated, "Mitigated");
    case Closed => assert StatusChoices[2] == (Closed, "Closed");
  }

  /** Raising likelihood or impact (never below zero) never lowers the level. */
  lemma {:induction false} RiskLevelMonotone(r: Risk, s: Risk)
    requires 0 <= r.likelihood <= s.likelihood
    requires 0 <= r.impact <= s.impact
    ensures RiskScore(r) <= RiskScore(s)
    ensures Rank(RiskLevel(r)) <= Rank(RiskLevel(s))
  {
    calc {
      r.likelihood * r.impact;
    <= { MulLeftMonotone(r.likelihood, r.impact, s.impact); }
      r.likelihood * s.impact;
    <= { MulLeftMonotone(s.impact, r.likelihood, s.likelihood); }
      s.likelihood * s.impact;
    }
  }

  lemma MulLeftMonotone(a: int, b: int, c: int)
    requires 0 <= a && b <= c
    ensures a * b <= a * c && b * a <= c * a
  {
    assert a * c - a * b == a * (c - b);
  }

  /** A risk with every default is Open, scores 1 and so is Low. */
  lemma DefaultRiskIsOpenAndLow(title: string)
    ensures NewRisk(title).status == Open && StatusLabel(NewRisk(title).status) == "Open"
    ensures RiskScore(NewRisk(title)) == 1
    ensures RiskLevel(NewRisk(title)) == Low
  {
  }
}
