/**
 * score_lead and priority_label: a fixed-weight heuristic score and the
 * coarse priority tier derived from it.
 */
module Scorer {
  import opened Text

  /** Industry words that earn the industry bonus. */
  const IndustryKeywords: seq<string> :=
    ["artificial", "ai", "machine learning", "fintech", "edtech", "saas", "analytics", "data"]

  /** Company-name words that earn the company bonus. */
  const CompanyKeywords: seq<string> := ["ai", "ml", "data", "cloud", "analytics"]

  /** Some keyword is a substring of `text` (plain substring search, so "ai"
      is found inside "retail"). */
  predicate AnyKeywordIn(keywords: seq<string>, text: string) {
    exists k :: 0 <= k < |keywords| && Contains(text, keywords[k])
  }

  /** The value score_lead returns, as one sum: a base of 40 for a valid
      e-mail and 10 otherwise, 20 when an industry keyword occurs in the
      lower-cased industry and 5 when none does, 10 when a company keyword
      occurs in the lower-cased company name, minus 10 for a free provider.
      It lies in [5, 70], well inside the clamp range [0, 100]. */
  function LeadScore(industry: string, emailValid: bool, company: string, isFreeEmail: bool): (r: int)
    ensures 5 <= r <= 70
  {
    (if emailValid then 40 else 10)
    + (if AnyKeywordIn(IndustryKeywords, Lower(industry)) then 20 else 5)
    + (if AnyKeywordIn(CompanyKeywords, Lower(company)) then 10 else 0)
    - (if isFreeEmail then 10 else 0)
  }

  /** score_lead: the keyword scans stop at the first match; the industry
      scan adds 5 only when it ran to the end without a match (Python's
      `for ... else`). The final clamp to [0, 100] never changes the sum. */
  method ScoreLead(industry: string, emailValid: bool, company: string, isFreeEmail: bool)
    returns (score: int)
    ensures score == LeadScore(industry, emailValid, company, isFreeEmail)
    ensures 0 <= score <= 100
  {
    score := if emailValid then 40 else 10;
    var base := score;
    // `(industry or "")` is `industry` itself for every string.
    var industryText := Lower(industry);
    var i := 0;
    while i < |IndustryKeywords|
      invariant 0 <= i <= |IndustryKeywords|
      invariant score == base
      invariant forall k :: 0 <= k < i ==> !Contains(industryText, IndustryKeywords[k])
    {
      if Contains(industryText, IndustryKeywords[i]) {
        score := score + 20;
        break;
      }
      i := i + 1;
    }
    if i == |IndustryKeywords| {
      score := score + 5;
    }
    base := score;
    var companyText := Lower(company);
    var j := 0;
    while j < |CompanyKeywords|
      invariant 0 <= j <= |CompanyKeywords|
      invariant score == base
      invariant forall k :: 0 <= k < j ==> !Contains(companyText, CompanyKeywords[k])
    {
      if Contains(companyText, CompanyKeywords[j]) {
        score := score + 10;
        break;
      }
      j := j + 1;
    }
    if isFreeEmail {
      score := score - 10;
    }
    score := if score > 100 then 100 else if score < 0 then 0 else score;
  }

  /** Priority tiers, lowest first. */
  datatype Priority = Low | Medium | High

  function Rank(p: Priority): nat {
    match p
    case Low => 0
    case Medium => 1
    case High => 2
  }

  /** priority_label, without the display emoji. */
  function PriorityLabel(score: int): Priority {
    if score >= 75 then High
    else if score >= 50 then Medium
    else Low
  }

  /** A higher score never gets a lower tier. */
  lemma PriorityMonotone(s1: int, s2: int)
    requires s1 <= s2
    ensures Rank(PriorityLabel(s1)) <= Rank(PriorityLabel(s2))
  {
  }

  /** Since every score is at most 70, no lead is ever ranked High. */
  lemma NoLeadIsHigh(industry: string, emailValid: bool, company: string, isFreeEmail: bool)
    ensures PriorityLabel(LeadScore(industry, emailValid, company, isFreeEmail)) != High
  {
  }

  /** Substring matching finds "ai" inside "Retail". */
  lemma RetailCountsAsHighValue()
    ensures AnyKeywordIn(IndustryKeywords, Lower("Retail"))
  {
    assert Lower("Retail") == "retail";
    assert Contains("retail", IndustryKeywords[1]);
  }

  /** The six scores of the built-in sample: 70, 45, 35, 60, 60 and 40. */
  lemma SampleScores()
    ensures LeadScore("Artificial Intelligence", true, "TechNova AI", false) == 70
    ensures LeadScore("Agriculture", true, "GreenFarm Ltd", false) == 45
    ensures LeadScore("Construction", true, "BuildMax", true) == 35
    ensures LeadScore("FinTech", true, "FinSolve", false) == 60
    ensures LeadScore("EdTech", true, "EduSmart", false) == 60
    ensures LeadScore("Analytics", false, "DataWave", false) == 40
  {
    ScoreTechNova();
    ScoreGreenFarm();
    ScoreBuildMax();
    ScoreFinSolve();
    ScoreEduSmart();
    ScoreDataWave();
  }

  lemma ScoreTechNova()
    ensures LeadScore("Artificial Intelligence", true, "TechNova AI", false) == 70
  {
    TechNovaIndustryText();
    TechNovaCompanyText();
    TechNovaKeywords();
  }

  lemma TechNovaIndustryText()
    ensures Lower("Artificial Intelligence") == "artificial intelligence"
  {
  }

  lemma TechNovaCompanyText()
    ensures Lower("TechNova AI") == "technova ai"
  {
  }

  lemma TechNovaKeywords()
    ensures AnyKeywordIn(IndustryKeywords, "artificial intelligence")
    ensures AnyKeywordIn(CompanyKeywords, "technova ai")
  {
    IndustryHit("artificial intelligence", 0, 0);
    CompanyHit("technova ai", 0, 9);
  }

  lemma ScoreGreenFarm()
    ensures LeadScore("Agriculture", true, "GreenFarm Ltd", false) == 45
  {
    GreenFarmText();
    GreenFarmKeywords();
  }

  lemma GreenFarmText()
    ensures Lower("Agriculture") == "agriculture" && Lower("GreenFarm Ltd") == "greenfarm ltd"
  {
  }

  lemma GreenFarmKeywords()
    ensures !AnyKeywordIn(IndustryKeywords, "agriculture")
    ensures !AnyKeywordIn(CompanyKeywords, "greenfarm ltd")
  {
    NoIndustryKeyword("agriculture");
    NoCompanyKeyword("greenfarm ltd");
  }

  lemma ScoreBuildMax()
    ensures LeadScore("Construction", true, "BuildMax", true) == 35
  {
    BuildMaxText();
    BuildMaxKeywords();
  }

  lemma BuildMaxText()
    ensures Lower("Construction") == "construction" && Lower("BuildMax") == "buildmax"
  {
  }

  lemma BuildMaxKeywords()
    ensures !AnyKeywordIn(IndustryKeywords, "construction")
    ensures !AnyKeywordIn(CompanyKeywords, "buildmax")
  {
    NoIndustryKeyword("construction");
    NoCompanyKeyword("buildmax");
  }

  lemma ScoreFinSolve()
    ensures LeadScore("FinTech", true, "FinSolve", false) == 60
  {
    FinSolveText();
    FinSolveKeywords();
  }

  lemma FinSolveText()
    ensures Lower("FinTech") == "fintech" && Lower("FinSolve") == "finsolve"
  {
  }

  lemma FinSolveKeywords()
    ensures AnyKeywordIn(IndustryKeywords, "fintech")
    ensures !AnyKeywordIn(CompanyKeywords, "finsolve")
  {
    IndustryHit("fintech", 3, 0);
    NoCompanyKeyword("finsolve");
  }

  lemma ScoreEduSmart()
    ensures LeadScore("EdTech", true, "EduSmart", false) == 60
  {
    EduSmartText();
    EduSmartKeywords();
  }

  lemma EduSmartText()
    ensures Lower("EdTech") == "edtech" && Lower("EduSmart") == "edusmart"
  {
  }

  lemma EduSmartKeywords()
    ensures AnyKeywordIn(IndustryKeywords, "edtech")
    ensures !AnyKeywordIn(CompanyKeywords, "edusmart")
  {
    IndustryHit("edtech", 4, 0);
    NoCompanyKeyword("edusmart");
  }

  lemma ScoreDataWave()
    ensures LeadScore("Analytics", false, "DataWave", false) == 40
  {
    DataWaveText();
    DataWaveKeywords();
  }

  lemma DataWaveText()
    ensures Lower("Analytics") == "analytics" && Lower("DataWave") == "datawave"
  {
  }

  lemma DataWaveKeywords()
    ensures AnyKeywordIn(IndustryKeywords, "analytics")
    ensures AnyKeywordIn(CompanyKeywords, "datawave")
  {
    IndustryHit("analytics", 6, 0);
    CompanyHit("datawave", 2, 0);
  }

  /** A window of `text` holding an industry keyword earns the bonus. */
  lemma IndustryHit(text: string, k: nat, at: nat)
    requires k < |IndustryKeywords| && at + |IndustryKeywords[k]| <= |text|
    requires text[at..at + |IndustryKeywords[k]|] == IndustryKeywords[k]
    ensures AnyKeywordIn(IndustryKeywords, text)
  {
    ContainsWindow(text, IndustryKeywords[k], at);
  }

  /** A window of `text` holding a company keyword earns the bonus. */
  lemma CompanyHit(text: string, k: nat, at: nat)
    requires k < |CompanyKeywords| && at + |CompanyKeywords[k]| <= |text|
    requires text[at..at + |CompanyKeywords[k]|] == CompanyKeywords[k]
    ensures AnyKeywordIn(CompanyKeywords, text)
  {
    ContainsWindow(text, CompanyKeywords[k], at);
  }

  /** No window of `text` starts with the first two letters of an industry keyword. */
  lemma NoIndustryKeyword(text: string)
    requires forall k :: 0 <= k < |text| - 1 ==>
               !(text[k] == 'a' && text[k + 1] in {'r', 'i', 'n'}) && !(text[k] == 'm' && text[k + 1] == 'a') &&
               !(text[k] == 'f' && text[k + 1] == 'i') && !(text[k] == 'e' && text[k + 1] == 'd') &&
               !(text[k] == 's' && text[k + 1] == 'a') && !(text[k] == 'd' && text[k + 1] == 'a')
    ensures !AnyKeywordIn(IndustryKeywords, text)
  {
    forall k | 0 <= k < |IndustryKeywords| ensures !Contains(text, IndustryKeywords[k]) {
      NoWindowStartsWith(text, IndustryKeywords[k], 0);
    }
  }

  /** No window of `text` starts with the first two letters of a company keyword. */
  lemma NoCompanyKeyword(text: string)
    requires forall k :: 0 <= k < |text| - 1 ==>
               !(text[k] == 'a' && text[k + 1] in {'i', 'n'}) && !(text[k] == 'm' && text[k + 1] == 'l') &&
               !(text[k] == 'd' && text[k + 1] == 'a') && !(text[k] == 'c' && text[k + 1] == 'l')
    ensures !AnyKeywordIn(CompanyKeywords, text)
  {
    forall k | 0 <= k < |CompanyKeywords| ensures !Contains(text, CompanyKeywords[k]) {
      NoWindowStartsWith(text, CompanyKeywords[k], 0);
    }
  }
}
