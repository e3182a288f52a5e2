/**
 * The "Process Leads" step: fill missing cells with "", add the derived
 * columns row by row, sort by score (highest first) and, when the
 * deduplicate option is on, deduplicate.
 */
module Pipeline {
  import opened Wrappers
  import opened Validator
  import opened Enricher
  import opened Scorer
  import opened Leads
  import opened Dedup
  import opened Reporter

  /** fillna(""): a missing cell becomes the empty string. */
  function FillNa(cell: Option<string>): string {
    match cell
    case None => []
    case Some(s) => s
  }

  /** The derived columns of one row, from its three input cells. */
  function ScoreFields(company: string, email: string, industry: string): ScoredLead {
    var valid := ValidateEmail(Some(email));
    var e := EnrichLead(company, Some(email));
    var score := LeadScore(industry, valid, company, e.isFreeEmail);
    ScoredLead(company, email, industry, valid, e.domain, e.linkedIn, e.isFreeEmail, score, PriorityLabel(score))
  }

  /** Every derived column of the row is what the helper functions give for
      its Company, Email and Industry cells. */
  predicate Consistent(r: ScoredLead) {
    r == ScoreFields(r.company, r.email, r.industry)
  }

  function ScoreRow(raw: RawLead): ScoredLead {
    ScoreFields(FillNa(raw.company), FillNa(raw.email), FillNa(raw.industry))
  }

  /** The frame after the column assignments, in input order. */
  function ScoreRows(input: seq<RawLead>): (rows: seq<ScoredLead>)
    ensures |rows| == |input|
    ensures forall k :: 0 <= k < |input| ==> rows[k] == ScoreRow(input[k])
  {
    seq(|input|, k requires 0 <= k < |input| => ScoreRow(input[k]))
  }

  /** The processed frame, or `None` for an input without rows (the tool
      then only shows a warning). */
  function Process(input: seq<RawLead>, dedupe: bool): Option<seq<ScoredLead>> {
    if input == [] then None
    else
      var sorted := SortByScore(ScoreRows(input));
      Some(if dedupe then Deduplicate(sorted, true) else sorted)
  }

  /** The pipeline as the tool runs it: each row is validated, enriched,
      scored and labelled, then the frame is sorted and optionally
      deduplicated. */
  method ProcessLeads(input: seq<RawLead>, dedupe: bool) returns (out: Option<seq<ScoredLead>>)
    ensures out == Process(input, dedupe)
  {
    if input == [] {
      return None;
    }
    var rows: seq<ScoredLead> := [];
    var i := 0;
    while i < |input|
      invariant 0 <= i <= |input|
      invariant rows == ScoreRows(input[..i])
    {
      var row := ScoreOne(input[i]);
      ScoreRowsGrow(input, i);
      rows := rows + [row];
      i := i + 1;
    }
    assert input[..i] == input;
    var sorted := SortByScore(rows);
    if dedupe {
      sorted := Deduplicate(sorted, true);
    }
    out := Some(sorted);
  }

  /** Scoring one more input row appends its scored row. */
  lemma ScoreRowsGrow(input: seq<RawLead>, i: nat)
    requires i < |input|
    ensures ScoreRows(input[..i + 1]) == ScoreRows(input[..i]) + [ScoreRow(input[i])]
  {
    assert input[..i + 1] == input[..i] + [input[i]];
  }

  /** One row of the column assignments: fill the cells, validate, enrich,
      score and label. */
  method ScoreOne(raw: RawLead) returns (row: ScoredLead)
    ensures row == ScoreRow(raw)
    ensures Consistent(row)
  {
    var company := FillNa(raw.company);
    var email := FillNa(raw.email);
    var industry := FillNa(raw.industry);
    var valid := ValidateEmail(Some(email));
    var e := EnrichLead(company, Some(email));
    var score := ScoreLead(industry, valid, company, e.isFreeEmail);
    row := ScoredLead(company, email, industry, valid, e.domain, e.linkedIn, e.isFreeEmail,
                      score, PriorityLabel(score));
  }

  lemma ScoredRowsAreConsistent(input: seq<RawLead>)
    ensures forall x :: x in multiset(ScoreRows(input)) ==> Consistent(x) && 5 <= x.score <= 70 && x.priority != High
  {
  }

  /** The processed frame is drawn from the scored input rows and ordered
      by score, highest first; without deduplication it holds every input
      row. */
  lemma ProcessedFromInput(input: seq<RawLead>, dedupe: bool)
    requires input != []
    ensures Process(input, dedupe).Some?
    ensures NonIncreasing(Process(input, dedupe).value)
    ensures multiset(Process(input, dedupe).value) <= multiset(ScoreRows(input))
    ensures !dedupe ==> multiset(Process(input, dedupe).value) == multiset(ScoreRows(input))
    ensures !dedupe ==> |Process(input, dedupe).value| == |input|
  {
    if dedupe {
      DeduplicatedSpec(input);
    }
  }

  /** Every row of the processed frame has its derived columns consistent
      with its input cells, a score in [5, 70] and hence a tier below High. */
  lemma ProcessedRowsSpec(input: seq<RawLead>, dedupe: bool)
    requires input != []
    ensures forall k :: 0 <= k < |Process(input, dedupe).value| ==>
              var r := Process(input, dedupe).value[k];
              Consistent(r) && 5 <= r.score <= 70 && r.priority != High
  {
    var out := Process(input, dedupe).value;
    ProcessedFromInput(input, dedupe);
    ScoredRowsAreConsistent(input);
    DrawnRowsKeep(out, ScoreRows(input), (x: ScoredLead) => Consistent(x) && 5 <= x.score <= 70 && x.priority != High);
  }

  /** A property of every row of a table holds of every row drawn from it. */
  lemma DrawnRowsKeep(out: seq<ScoredLead>, rows: seq<ScoredLead>, p: ScoredLead -> bool)
    requires multiset(out) <= multiset(rows)
    requires forall x :: x in multiset(rows) ==> p(x)
    ensures forall k :: 0 <= k < |out| ==> p(out[k])
  {
  }

  /** With deduplication the frame has distinct e-mails and distinct
      companies, and the row kept for an e-mail has the best score of all
      input rows with that e-mail. */
  lemma DeduplicatedSpec(input: seq<RawLead>)
    requires input != []
    ensures NonIncreasing(Process(input, true).value)
    ensures multiset(Process(input, true).value) <= multiset(ScoreRows(input))
    ensures DistinctBy(Process(input, true).value, EmailOf)
    ensures DistinctBy(Process(input, true).value, CompanyOf)
    ensures forall y, x :: y in Process(input, true).value && x in ScoreRows(input) && x.email == y.email ==>
              x.score <= y.score
    ensures Process(input, true).value != []
  {
    var rows := ScoreRows(input);
    var sorted := SortByScore(rows);
    DeduplicateSpec(sorted, true);
    forall x | x in rows ensures x in sorted {
      assert x in multiset(rows);
    }
  }

  /** With deduplication on, the second sort inside deduplicate finds the
      frame already ordered, so only the two drop passes change it. */
  lemma DeduplicatedProcessIsDropPasses(input: seq<RawLead>)
    requires input != []
    ensures Process(input, true) == Some(DropPasses(SortByScore(ScoreRows(input)), true))
  {
    SortOrderedIsIdentity(SortByScore(ScoreRows(input)));
  }

  /** The summary of a processed frame never counts a High lead: every
      row is Medium (50-74) or Low (below 50). */
  lemma ProcessedReportHasNoHigh(input: seq<RawLead>, dedupe: bool)
    requires input != []
    ensures CountAtLeast(Process(input, dedupe).value, 75) == 0
    ensures CountInRange(Process(input, dedupe).value, 50, 75) + CountBelow(Process(input, dedupe).value, 50)
            == |Process(input, dedupe).value|
  {
    var out := Process(input, dedupe).value;
    ProcessedRowsSpec(input, dedupe);
    NoHighRows(out);
    BandsPartitionRows(out);
  }

  // ---------------------------------------------------------------------
  // The built-in sample

  /** The six leads of the "Use sample data" button. */
  const SampleLeads: seq<RawLead> := [
    RawLead(Some("TechNova AI"), Some("contact@technovaai.com"), Some("Artificial Intelligence")),
    RawLead(Some("GreenFarm Ltd"), Some("info@greenfarm.com"), Some("Agriculture")),
    RawLead(Some("BuildMax"), Some("sales.buildmax@gmail.com"), Some("Construction")),
    RawLead(Some("FinSolve"), Some("support@finsolve.io"), Some("FinTech")),
    RawLead(Some("EduSmart"), Some("hello@edusmart.org"), Some("EdTech")),
    RawLead(Some("DataWave"), Some("random_email@"), Some("Analytics"))
  ]

  lemma SampleTechNovaRow()
    ensures var r := ScoreRow(RawLead(Some("TechNova AI"), Some("contact@technovaai.com"), Some("Artificial Intelligence")));
      r.company == "TechNova AI" && r.email == "contact@technovaai.com" && r.score == 70
  {
    SampleTechNovaAddress();
    SampleTechNovaEnriched("TechNova AI");
    ScoreTechNova();
  }

  lemma SampleGreenFarmRow()
    ensures var r := ScoreRow(RawLead(Some("GreenFarm Ltd"), Some("info@greenfarm.com"), Some("Agriculture")));
      r.company == "GreenFarm Ltd" && r.email == "info@greenfarm.com" && r.score == 45
  {
    SampleGreenFarmAddress();
    SampleGreenFarmEnriched("GreenFarm Ltd");
    ScoreGreenFarm();
  }

  lemma SampleBuildMaxRow()
    ensures var r := ScoreRow(RawLead(Some("BuildMax"), Some("sales.buildmax@gmail.com"), Some("Construction")));
      r.company == "BuildMax" && r.email == "sales.buildmax@gmail.com" && r.score == 35
  {
    SampleBuildMaxAddress();
    SampleBuildMax();
    ScoreBuildMax();
  }

  lemma SampleFinSolveRow()
    ensures var r := ScoreRow(RawLead(Some("FinSolve"), Some("support@finsolve.io"), Some("FinTech")));
      r.company == "FinSolve" && r.email == "support@finsolve.io" && r.score == 60
  {
    SampleFinSolveAddress();
    SampleFinSolveEnriched("FinSolve");
    ScoreFinSolve();
  }

  lemma SampleEduSmartRow()
    ensures var r := ScoreRow(RawLead(Some("EduSmart"), Some("hello@edusmart.org"), Some("EdTech")));
      r.company == "EduSmart" && r.email == "hello@edusmart.org" && r.score == 60
  {
    SampleEduSmartAddress();
    SampleEduSmartEnriched("EduSmart");
    ScoreEduSmart();
  }

  lemma SampleDataWaveRow()
    ensures var r := ScoreRow(RawLead(Some("DataWave"), Some("random_email@"), Some("Analytics")));
      r.company == "DataWave" && r.email == "random_email@" && r.score == 40
  {
    SampleAddressRejected();
    SampleDanglingAt("DataWave");
    ScoreDataWave();
  }

  /** The scored sample rows, in input order. */
  lemma SampleRows(input: seq<RawLead>)
    requires input == SampleLeads
    ensures var rows := ScoreRows(input);
      && |rows| == 6
      && [rows[0].company, rows[1].company, rows[2].company, rows[3].company, rows[4].company, rows[5].company]
         == ["TechNova AI", "GreenFarm Ltd", "BuildMax", "FinSolve", "EduSmart", "DataWave"]
      && [rows[0].email, rows[1].email, rows[2].email, rows[3].email, rows[4].email, rows[5].email]
         == ["contact@technovaai.com", "info@greenfarm.com", "sales.buildmax@gmail.com",
             "support@finsolve.io", "hello@edusmart.org", "random_email@"]
      && [rows[0].score, rows[1].score, rows[2].score, rows[3].score, rows[4].score, rows[5].score]
         == [70, 45, 35, 60, 60, 40]
  {
    SampleTechNovaRow();
    SampleGreenFarmRow();
    SampleBuildMaxRow();
    SampleFinSolveRow();
    SampleEduSmartRow();
    SampleDataWaveRow();
  }

  /** Only the last sample lead, `random_email@`, has an invalid e-mail. */
  lemma SampleValidFlags(input: seq<RawLead>)
    requires input == SampleLeads
    ensures var rows := ScoreRows(input);
      && |rows| == 6
      && [rows[0].emailValid, rows[1].emailValid, rows[2].emailValid,
          rows[3].emailValid, rows[4].emailValid, rows[5].emailValid]
         == [true, true, true, true, true, false]
  {
    SampleRows(input);
    ValidColumn(input);
    SampleAddressesAccepted();
    SampleAddressRejected();
  }

  /** The Email Valid column is `validate_email` of the row's own e-mail. */
  lemma ValidColumn(input: seq<RawLead>)
    ensures forall k :: 0 <= k < |input| ==>
              ScoreRows(input)[k].emailValid == ValidateEmail(Some(ScoreRows(input)[k].email))
  {
  }

  /** The sample, processed: with or without deduplication (no two sample
      rows share an e-mail or a company) the table lists TechNova AI,
      FinSolve, EduSmart, GreenFarm Ltd, DataWave and BuildMax, scoring 70,
      60, 60, 45, 40 and 35. */
  lemma SampleProcessed(dedupe: bool)
    ensures Process(SampleLeads, dedupe) == Some(SortByScore(ScoreRows(SampleLeads)))
    ensures var out := Process(SampleLeads, dedupe).value;
      && |out| == 6
      && [out[0].company, out[1].company, out[2].company, out[3].company, out[4].company, out[5].company]
         == ["TechNova AI", "FinSolve", "EduSmart", "GreenFarm Ltd", "DataWave", "BuildMax"]
      && [out[0].score, out[1].score, out[2].score, out[3].score, out[4].score, out[5].score]
         == [70, 60, 60, 45, 40, 35]
  {
    var sorted := SampleSorted(SampleLeads);
    if dedupe {
      SampleDistinct(sorted);
      SortOrderedIsIdentity(sorted);
      DropDistinctIsIdentity(sorted, EmailOf, {});
      DropDistinctIsIdentity(sorted, CompanyOf, {});
    }
  }

  /** The summary of the processed sample: six leads, five with a valid
      e-mail (only `random_email@` fails), none High, three Medium (70, 60
      and 60) and three Low (45, 40 and 35). */
  lemma SampleReportCounts(dedupe: bool)
    ensures Process(SampleLeads, dedupe).Some?
    ensures var out := Process(SampleLeads, dedupe).value;
      && |out| == 6
      && CountValid(out) == 5
      && CountAtLeast(out, 75) == 0
      && CountInRange(out, 50, 75) == 3
      && CountBelow(out, 50) == 3
  {
    SampleProcessed(dedupe);
    SampleSortedValid(SampleLeads);
    SampleCounts(Process(SampleLeads, dedupe).value);
  }

  /** In sorted order, the invalid e-mail is on the fifth row. */
  lemma SampleSortedValid(input: seq<RawLead>)
    requires input == SampleLeads
    ensures var sorted := SortByScore(ScoreRows(input));
      && |sorted| == 6
      && [sorted[0].emailValid, sorted[1].emailValid, sorted[2].emailValid,
          sorted[3].emailValid, sorted[4].emailValid, sorted[5].emailValid]
         == [true, true, true, true, false, true]
  {
    var rows := ScoreRows(input);
    SampleRows(input);
    SampleValidFlags(input);
    SortSixRows(rows);
  }

  /** The report counts of six rows with the processed sample's e-mail
      flags and scores. */
  lemma SampleCounts(rows: seq<ScoredLead>)
    requires |rows| == 6
    requires [rows[0].emailValid, rows[1].emailValid, rows[2].emailValid,
              rows[3].emailValid, rows[4].emailValid, rows[5].emailValid]
          == [true, true, true, true, false, true]
    requires [rows[0].score, rows[1].score, rows[2].score,
              rows[3].score, rows[4].score, rows[5].score] == [70, 60, 60, 45, 40, 35]
    ensures CountValid(rows) == 5
    ensures CountAtLeast(rows, 75) == 0
    ensures CountInRange(rows, 50, 75) == 3
    ensures CountBelow(rows, 50) == 3
  {
    assert rows[0..] == rows && rows[6..] == [];
    CountsStep(rows, 0);
    CountsStep(rows, 1);
    CountsStep(rows, 2);
    CountsStep(rows, 3);
    CountsStep(rows, 4);
    CountsStep(rows, 5);
  }

  /** No two sample rows share an e-mail or a company. */
  lemma SampleDistinct(sorted: seq<ScoredLead>)
    requires |sorted| == 6
    requires [sorted[0].company, sorted[1].company, sorted[2].company,
              sorted[3].company, sorted[4].company, sorted[5].company]
          == ["TechNova AI", "FinSolve", "EduSmart", "GreenFarm Ltd", "DataWave", "BuildMax"]
    requires [sorted[0].email, sorted[1].email, sorted[2].email,
              sorted[3].email, sorted[4].email, sorted[5].email]
          == ["contact@technovaai.com", "support@finsolve.io", "hello@edusmart.org",
              "info@greenfarm.com", "random_email@", "sales.buildmax@gmail.com"]
    ensures DistinctBy(sorted, EmailOf) && DistinctBy(sorted, CompanyOf)
  {
    var companies := [sorted[0].company, sorted[1].company, sorted[2].company,
                      sorted[3].company, sorted[4].company, sorted[5].company];
    var emails := [sorted[0].email, sorted[1].email, sorted[2].email,
                   sorted[3].email, sorted[4].email, sorted[5].email];
    forall i, j | 0 <= i < j < 6 ensures companies[i] != companies[j] && emails[i] != emails[j] {
      assert companies[i][0] != companies[j][0] || |companies[i]| != |companies[j]|;
      assert emails[i][0] != emails[j][0] || |emails[i]| != |emails[j]|;
    }
  }

  /** The sort of the scored sample, equal scores kept in input order. */
  lemma SampleSorted(input: seq<RawLead>) returns (sorted: seq<ScoredLead>)
    requires input == SampleLeads
    ensures sorted == SortByScore(ScoreRows(input))
    ensures |sorted| == 6
    ensures [sorted[0].company, sorted[1].company, sorted[2].company,
             sorted[3].company, sorted[4].company, sorted[5].company]
         == ["TechNova AI", "FinSolve", "EduSmart", "GreenFarm Ltd", "DataWave", "BuildMax"]
    ensures [sorted[0].email, sorted[1].email, sorted[2].email,
             sorted[3].email, sorted[4].email, sorted[5].email]
         == ["contact@technovaai.com", "support@finsolve.io", "hello@edusmart.org",
             "info@greenfarm.com", "random_email@", "sales.buildmax@gmail.com"]
    ensures [sorted[0].score, sorted[1].score, sorted[2].score,
             sorted[3].score, sorted[4].score, sorted[5].score] == [70, 60, 60, 45, 40, 35]
  {
    var rows := ScoreRows(input);
    SampleRows(input);
    SortSixRows(rows);
    sorted := [rows[0], rows[3], rows[4], rows[1], rows[5], rows[2]];
  }

  /** Six rows scoring 70, 45, 35, 60, 60 and 40 sort into the order
      first, fourth, fifth, second, sixth, third: the two rows scoring 60
      keep their input order. */
  lemma SortSixRows(rows: seq<ScoredLead>)
    requires |rows| == 6
    requires rows[0].score == 70 && rows[1].score == 45 && rows[2].score == 35
    requires rows[3].score == 60 && rows[4].score == 60 && rows[5].score == 40
    ensures SortByScore(rows) == [rows[0], rows[3], rows[4], rows[1], rows[5], rows[2]]
  {
    SortLastFive(rows);
    SortFirstRow(rows);
    PrependFive(rows[0], rows[3], rows[4], rows[1], rows[5], rows[2]);
  }

  lemma SortFirstRow(rows: seq<ScoredLead>)
    requires |rows| == 6 && rows[0].score == 70
    requires SortByScore(rows[1..]) != [] && SortByScore(rows[1..])[0].score == 60
    ensures SortByScore(rows) == [rows[0]] + SortByScore(rows[1..])
  {
    InsertFront(rows[0], SortByScore(rows[1..]));
  }

  lemma PrependFive<T>(a: T, b: T, c: T, d: T, e: T, f: T)
    ensures [a] + [b, c, d, e, f] == [a, b, c, d, e, f]
  {
  }

  lemma SortLastFive(rows: seq<ScoredLead>)
    requires |rows| == 6
    requires rows[1].score == 45 && rows[2].score == 35
    requires rows[3].score == 60 && rows[4].score == 60 && rows[5].score == 40
    ensures SortByScore(rows[1..]) == [rows[3], rows[4], rows[1], rows[5], rows[2]]
  {
    SortLastFour(rows);
    SortSuffix(rows, 1);
    InsertSecondRow(rows);
  }

  lemma InsertSecondRow(rows: seq<ScoredLead>)
    requires |rows| == 6
    requires rows[1].score == 45 && rows[2].score == 35
    requires rows[3].score == 60 && rows[4].score == 60 && rows[5].score == 40
    ensures Insert(rows[1], rows[3..] + [rows[2]]) == [rows[3], rows[4], rows[1], rows[5], rows[2]]
  {
    var t := rows[3..] + [rows[2]];
    InsertAt(rows[1], t, 2);
    assert t[..2] == [rows[3], rows[4]] && t[2..] == [rows[5], rows[2]];
  }

  lemma SortLastFour(rows: seq<ScoredLead>)
    requires |rows| == 6
    requires rows[2].score == 35 && rows[3].score == 60 && rows[4].score == 60 && rows[5].score == 40
    ensures SortByScore(rows[2..]) == rows[3..] + [rows[2]]
  {
    SortOrderedIsIdentity(rows[3..]);
    SortSuffix(rows, 2);
    InsertThirdRow(rows);
  }

  lemma InsertThirdRow(rows: seq<ScoredLead>)
    requires |rows| == 6
    requires rows[2].score == 35 && rows[3].score == 60 && rows[4].score == 60 && rows[5].score == 40
    ensures Insert(rows[2], rows[3..]) == rows[3..] + [rows[2]]
  {
    InsertAt(rows[2], rows[3..], 3);
    assert rows[3..][..3] == rows[3..] && rows[3..][3..] == [];
  }
}
