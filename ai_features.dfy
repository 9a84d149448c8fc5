/**
 * The deterministic post-processing around the LLM calls of risks/ai_features.py:
 * recovering the JSON text from a reply, forcing a suggested category into the allowed
 * list, and counting risks per level for the executive summary. The replies themselves
 * are arbitrary inputs.
 */
module AiFeatures {
  import opened Wrappers
  import opened PyStrings
  import opened RiskModel

  const JsonFence: string := "```json"
  const CodeFence: string := "```"

  /**
   * `extract_json_from_response`: the stripped text between the first "```json" and the
   * next "```" after it; the whole text stripped when there is no such pair.
   */
  function ExtractJsonFromResponse(text: string): (r: string)
    ensures r == [] || (!IsSpace(r[0]) && !IsSpace(r[|r| - 1]))
  {
    if Contains(text, JsonFence) then
      var start := Find(text, JsonFence, 0);
      if start != -1 then
        var open := start + |JsonFence|;
        var close := Find(text, CodeFence, open);
        if close != -1 then
          Strip(text[open..close])
        else Strip(text)
      else Strip(text)
    else Strip(text)
  }

  /** The result is a contiguous piece of the reply. */
  lemma ExtractedOccursInReply(text: string)
    ensures exists k :: OccursAt(text, ExtractJsonFromResponse(text), k)
  {
    var start := Find(text, JsonFence, 0);
    if Contains(text, JsonFence) && start != -1 && Find(text, CodeFence, start + |JsonFence|) != -1 {
      var open := start + |JsonFence|;
      var close := Find(text, CodeFence, open);
      FencedOccurs(text, open, close);
    } else {
      UnfencedOccurs(text);
    }
  }

  /** A fenced block's stripped content sits where its stripping starts inside the block. */
  lemma FencedOccurs(text: string, open: nat, close: int)
    requires Contains(text, JsonFence) && Find(text, JsonFence, 0) != -1
    requires open == Find(text, JsonFence, 0) + |JsonFence|
    requires close == Find(text, CodeFence, open) && close != -1
    ensures open <= close
    ensures OccursAt(text, ExtractJsonFromResponse(text), open + StripStart(text[open..close]))
  {
    assert ExtractJsonFromResponse(text) == Strip(text[open..close]);
    StripInSlice(text, open, close);
  }

  /** Otherwise the stripped reply sits where its stripping starts. */
  lemma UnfencedOccurs(text: string)
    requires !(Contains(text, JsonFence) && Find(text, JsonFence, 0) != -1
               && Find(text, CodeFence, Find(text, JsonFence, 0) + |JsonFence|) != -1)
    ensures OccursAt(text, ExtractJsonFromResponse(text), StripStart(text))
  {
    assert ExtractJsonFromResponse(text) == Strip(text);
    StripInSlice(text, 0, |text|);
    assert text[0..|text|] == text;
  }

  /** The stripped slice `text[lo..hi]` occurs in `text`. */
  lemma StripInSlice(text: string, lo: int, hi: int)
    requires 0 <= lo <= hi <= |text|
    ensures OccursAt(text, Strip(text[lo..hi]), lo + StripStart(text[lo..hi]))
  {
    var inner := text[lo..hi];
    SliceOfSlice(text, lo, hi, StripStart(inner), StripEnd(inner));
  }

  /** Without a "```json" marker the reply is only stripped. */
  lemma NoFenceStripsOnly(text: string)
    requires !Contains(text, JsonFence)
    ensures ExtractJsonFromResponse(text) == Strip(text)
  {
  }

  /**
   * With a first "```json" at `i` and a first "```" at `j` from the end of that marker
   * on, the result is the stripped text strictly between them.
   */
  lemma FencedBlockExtracted(text: string, i: nat, j: nat)
    requires OccursAt(text, JsonFence, i)
    requires forall k :: 0 <= k < i ==> !OccursAt(text, JsonFence, k)
    requires i + |JsonFence| <= j && OccursAt(text, CodeFence, j)
    requires forall k :: i + |JsonFence| <= k < j ==> !OccursAt(text, CodeFence, k)
    ensures ExtractJsonFromResponse(text) == Strip(text[i + |JsonFence|..j])
  {
    assert Contains(text, JsonFence);
    FindFirst(text, JsonFence, 0, i);
    FindFirst(text, CodeFence, i + |JsonFence|, j);
  }

  /** A "```json" marker with no "```" after it falls back to stripping the whole reply. */
  lemma UnclosedFenceStripsOnly(text: string, i: nat)
    requires OccursAt(text, JsonFence, i)
    requires forall k :: 0 <= k < i ==> !OccursAt(text, JsonFence, k)
    requires forall k :: i + |JsonFence| <= k ==> !OccursAt(text, CodeFence, k)
    ensures ExtractJsonFromResponse(text) == Strip(text)
  {
    assert Contains(text, JsonFence);
    FindFirst(text, JsonFence, 0, i);
  }

  /** No "```" starts at or after `i + 7` for any "```json" at `i`: no closed block. */
  ghost predicate NoClosedBlock(s: string) {
    forall i, j :: OccursAt(s, JsonFence, i) && OccursAt(s, CodeFence, j) ==> j < i + |JsonFence|
  }

  /** Without a closed block the extraction only strips. */
  lemma NoClosedBlockStripsOnly(s: string)
    requires NoClosedBlock(s)
    ensures ExtractJsonFromResponse(s) == Strip(s)
  {
    if Contains(s, JsonFence) {
      ContainsIffFound(s, JsonFence);
      var start := Find(s, JsonFence, 0);
      assert OccursAt(s, JsonFence, start);
      assert Find(s, CodeFence, start + |JsonFence|) == -1;
    }
  }

  /** Having no closed block survives taking a slice. */
  lemma NoClosedBlockSlice(s: string, lo: int, hi: int)
    requires 0 <= lo <= hi <= |s|
    requires NoClosedBlock(s)
    ensures NoClosedBlock(s[lo..hi])
  {
    forall i, j | OccursAt(s[lo..hi], JsonFence, i) && OccursAt(s[lo..hi], CodeFence, j)
      ensures j < i + |JsonFence|
    {
      OccursInSlice(s, JsonFence, lo, hi, i);
      OccursInSlice(s, CodeFence, lo, hi, j);
    }
  }

  /** A text with no "```" at all has no closed block. */
  lemma NoCodeFenceNoClosedBlock(s: string)
    requires forall k :: !OccursAt(s, CodeFence, k)
    ensures NoClosedBlock(s)
  {
  }

  /** The text between a "```json" marker and the next "```" holds no "```". */
  lemma BlockHasNoCodeFence(text: string, open: nat)
    requires Find(text, CodeFence, open) != -1
    ensures forall k :: !OccursAt(text[open..Find(text, CodeFence, open)], CodeFence, k)
  {
    var close := Find(text, CodeFence, open);
    forall k | OccursAt(text[open..close], CodeFence, k) ensures false {
      OccursInSlice(text, CodeFence, open, close, k);
    }
  }

  /** A text in which `find` reports no "```" after the first marker holds no closed block. */
  lemma UnclosedTextHasNoClosedBlock(text: string)
    requires !Contains(text, JsonFence)
             || Find(text, CodeFence, Find(text, JsonFence, 0) + |JsonFence|) == -1
    ensures NoClosedBlock(text)
  {
    ContainsIffFound(text, JsonFence);
  }

  /** Whatever the extraction returns holds no closed block. */
  lemma ExtractedHasNoClosedBlock(text: string)
    ensures NoClosedBlock(ExtractJsonFromResponse(text))
  {
    ContainsIffFound(text, JsonFence);
    var start := Find(text, JsonFence, 0);
    if Contains(text, JsonFence) && Find(text, CodeFence, start + |JsonFence|) != -1 {
      var open := start + |JsonFence|;
      var inner := text[open..Find(text, CodeFence, open)];
      BlockHasNoCodeFence(text, open);
      NoCodeFenceNoClosedBlock(inner);
      NoClosedBlockSlice(inner, StripStart(inner), StripEnd(inner));
    } else {
      UnclosedTextHasNoClosedBlock(text);
      NoClosedBlockSlice(text, StripStart(text), StripEnd(text));
    }
  }

  /** Extracting again from an extracted reply changes nothing. */
  lemma ExtractIdempotent(text: string)
    ensures ExtractJsonFromResponse(ExtractJsonFromResponse(text)) == ExtractJsonFromResponse(text)
  {
    var r := ExtractJsonFromResponse(text);
    ExtractedHasNoClosedBlock(text);
    NoClosedBlockStripsOnly(r);
    StripStripped(r);
  }

  /**
   * A reply made of a "```json" line, a body and a closing "```" line comes out as the
   * bare body, when the body holds no "```" and has no whitespace at either end.
   */
  lemma FencedBodyExtracted(body: string)
    requires forall k :: !OccursAt(body, CodeFence, k)
    requires body == [] || (!IsSpace(body[0]) && !IsSpace(body[|body| - 1]))
    ensures ExtractJsonFromResponse(JsonFence + "\n" + body + "\n" + CodeFence) == body
  {
    var text := JsonFence + "\n" + body + "\n" + CodeFence;
    var close := |JsonFence| + |body| + 2;
    FencedBodyMarkers(body, text);
    FencedBlockExtracted(text, 0, close);
    var inner := text[|JsonFence|..close];
    assert inner == "\n" + body + "\n";
    if body == [] {
      StripRemovesOnlySpace(inner);
    } else {
      StripOf(inner, 1, 1 + |body|);
    }
  }

  /** Where the markers of such a reply are: the only "```" after the opening one closes it. */
  lemma FencedBodyMarkers(body: string, text: string)
    requires forall k :: !OccursAt(body, CodeFence, k)
    requires text == JsonFence + "\n" + body + "\n" + CodeFence
    ensures OccursAt(text, JsonFence, 0)
    ensures OccursAt(text, CodeFence, |JsonFence| + |body| + 2)
    ensures forall k :: |JsonFence| <= k < |JsonFence| + |body| + 2 ==> !OccursAt(text, CodeFence, k)
  {
    var b := |body|;
    var close := |JsonFence| + b + 2;
    assert text[0..|JsonFence|] == JsonFence;
    assert text[close..close + 3] == CodeFence;
    assert text[|JsonFence|] == '\n' && text[|JsonFence| + b + 1] == '\n';
    forall k | |JsonFence| <= k < close ensures !OccursAt(text, CodeFence, k) {
      var q := |JsonFence| + b + 1;
      if k == |JsonFence| {
        assert text[k..k + 3][0] == '\n';
      } else if q < k + 3 {
        assert text[k..k + 3][q - k] == '\n';
      } else {
        var j := k - |JsonFence| - 1;
        assert text[k..k + 3] == body[j..j + 3];
        assert !OccursAt(body, CodeFence, j);
      }
    }
  }

  /** The category kept, or the first allowed one, or "Technical" when none is allowed. */
  function SuggestedCategory(proposed: Option<string>, available: seq<string>): (c: string)
    ensures c in available || (available == [] && c == "Technical")
    ensures proposed.Some? && proposed.value in available ==> c == proposed.value
    ensures proposed.None? || proposed.value !in available ==>
              c == FallbackCategory(available)
  {
    if proposed.Some? && proposed.value in available then proposed.value
    else FallbackCategory(available)
  }

  /** `available_categories[0] if available_categories else "Technical"`. */
  function FallbackCategory(available: seq<string>): (c: string)
    ensures c in available || (available == [] && c == "Technical")
  {
    if available != [] then available[0] else "Technical"
  }

  /**
   * Offered the register's own category choices, the fallback picks "Technical", the
   * same category it picks when no category is offered at all.
   */
  lemma FallbackIsTechnicalForRegisterChoices()
    ensures FallbackCategory(CategoryChoices) == FallbackCategory([]) == "Technical"
    ensures forall proposed :: proposed !in CategoryChoices ==>
              SuggestedCategory(Some(proposed), CategoryChoices) == "Technical"
  {
  }

  const FallbackConfidence: real := 0.3
  const FallbackNote: string := " (Fallback to default category)"
  const UnavailableConfidence: real := 0.2
  const UnavailableReasoning: string := "AI categorization unavailable - using default"

  /** The dictionary `auto_categorize_risk` returns. */
  class CategorySuggestion {
    var suggestedCategory: string
    var confidence: real
    var reasoning: string
    var alternativeCategories: seq<string>
    var keywordsIdentified: seq<string>

    constructor (suggestedCategory: string, confidence: real, reasoning: string,
                 alternativeCategories: seq<string>, keywordsIdentified: seq<string>)
      ensures this.suggestedCategory == suggestedCategory && this.confidence == confidence
      ensures this.reasoning == reasoning
      ensures this.alternativeCategories == alternativeCategories
      ensures this.keywordsIdentified == keywordsIdentified
    {
      this.suggestedCategory := suggestedCategory;
      this.confidence := confidence;
      this.reasoning := reasoning;
      this.alternativeCategories := alternativeCategories;
      this.keywordsIdentified := keywordsIdentified;
    }
  }

  /**
   * The category rule of `auto_categorize_risk`. `reply` is the parsed LLM answer, or
   * `None` when calling or parsing raised. A parsed answer whose category is not allowed
   * is corrected in place; otherwise it is returned untouched. A failure yields a fresh
   * default suggestion. Either way the category ends up allowed (or "Technical").
   */
  method AutoCategorizeRisk(reply: Option<CategorySuggestion>, available: seq<string>)
    returns (result: CategorySuggestion)
    modifies if reply.Some? then {reply.value} else {}
    ensures result.suggestedCategory in available
            || (available == [] && result.suggestedCategory == "Technical")
    ensures reply.Some? ==> result == reply.value
    ensures reply.Some? ==> result.suggestedCategory
                              == SuggestedCategory(Some(old(reply.value.suggestedCategory)), available)
    ensures reply.Some? && old(reply.value.suggestedCategory) in available ==> unchanged(reply.value)
    ensures reply.Some? && old(reply.value.suggestedCategory) !in available ==>
              result.confidence == FallbackConfidence
              && result.reasoning == old(reply.value.reasoning) + FallbackNote
              && result.alternativeCategories == old(reply.value.alternativeCategories)
              && result.keywordsIdentified == old(reply.value.keywordsIdentified)
    ensures reply.None? ==>
              fresh(result)
              && result.suggestedCategory == SuggestedCategory(None, available)
              && result.confidence == UnavailableConfidence
              && result.reasoning == UnavailableReasoning
              && result.alternativeCategories == [] && result.keywordsIdentified == []
  {
    match reply
    case Some(suggestion) =>
      if suggestion.suggestedCategory !in available {
        suggestion.suggestedCategory := FallbackCategory(available);
        suggestion.confidence := FallbackConfidence;
        suggestion.reasoning := suggestion.reasoning + FallbackNote;
      }
      result := suggestion;
    case None =>
      result := new CategorySuggestion(FallbackCategory(available), UnavailableConfidence,
                                       UnavailableReasoning, [], []);
  }

  /** `r.get('risk_score', 0)`: a missing score reads as 0. */
  function ScoreOrZero(score: Option<int>): int {
    score.GetOr(0)
  }

  /** The `high_risks` count: scores of 6 and above. */
  function HighRisks(scores: seq<Option<int>>): (n: nat)
    ensures n <= |scores|
  {
    if scores == [] then 0
    else HighRisks(scores[..|scores| - 1]) + (if ScoreOrZero(scores[|scores| - 1]) >= 6 then 1 else 0)
  }

  /** The `medium_risks` count: scores from 3 up to but not including 6. */
  function MediumRisks(scores: seq<Option<int>>): (n: nat)
    ensures n <= |scores|
  {
    if scores == [] then 0
    else MediumRisks(scores[..|scores| - 1])
         + (if 3 <= ScoreOrZero(scores[|scores| - 1]) < 6 then 1 else 0)
  }

  /** The `low_risks` count: scores below 3, a missing score included. */
  function LowRisks(scores: seq<Option<int>>): (n: nat)
    ensures n <= |scores|
  {
    if scores == [] then 0
    else LowRisks(scores[..|scores| - 1]) + (if ScoreOrZero(scores[|scores| - 1]) < 3 then 1 else 0)
  }

  /** How many scores `LevelOfScore` puts at `level`. */
  function CountAtLevel(scores: seq<Option<int>>, level: Level): nat {
    if scores == [] then 0
    else CountAtLevel(scores[..|scores| - 1], level)
         + (if LevelOfScore(ScoreOrZero(scores[|scores| - 1])) == level then 1 else 0)
  }

  /** Every risk is counted exactly once: the three counts add up to the total. */
  lemma {:induction false} LevelCountsPartition(scores: seq<Option<int>>)
    ensures HighRisks(scores) + MediumRisks(scores) + LowRisks(scores) == |scores|
  {
    if scores != [] {
      LevelCountsPartition(scores[..|scores| - 1]);
    }
  }

  /** The summary's thresholds are those of `risk_level`. */
  lemma {:induction false} LevelCountsAgreeWithRiskLevel(scores: seq<Option<int>>)
    ensures HighRisks(scores) == CountAtLevel(scores, High)
    ensures MediumRisks(scores) == CountAtLevel(scores, Medium)
    ensures LowRisks(scores) == CountAtLevel(scores, Low)
  {
    if scores != [] {
      LevelCountsAgreeWithRiskLevel(scores[..|scores| - 1]);
    }
  }

  /** A risk without a score is counted as Low. */
  lemma MissingScoreIsLow(scores: seq<Option<int>>)
    ensures HighRisks(scores + [None]) == HighRisks(scores)
    ensures MediumRisks(scores + [None]) == MediumRisks(scores)
    ensures LowRisks(scores + [None]) == LowRisks(scores) + 1
  {
    assert (scores + [None])[..|scores|] == scores;
  }
}
