/** generate_report: the summary counts and the top-5 leaderboard. */
module Reporter {
  import opened Wrappers
  import opened Text
  import opened Scorer
  import opened Leads
  import opened Dedup

  // ---------------------------------------------------------------------
  // Counting the score column

  /** Email Valid summed over the rows. */
  function CountValid(rows: seq<ScoredLead>): (n: nat)
    ensures n <= |rows|
  {
    if rows == [] then 0 else (if rows[0].emailValid then 1 else 0) + CountValid(rows[1..])
  }

  /** Rows with score >= t. */
  function CountAtLeast(rows: seq<ScoredLead>, t: int): (n: nat)
    ensures n <= |rows|
  {
    if rows == [] then 0 else (if rows[0].score >= t then 1 else 0) + CountAtLeast(rows[1..], t)
  }

  /** Rows with lo <= score < hi. */
  function CountInRange(rows: seq<ScoredLead>, lo: int, hi: int): (n: nat)
    ensures n <= |rows|
  {
    if rows == [] then 0
    else (if lo <= rows[0].score < hi then 1 else 0) + CountInRange(rows[1..], lo, hi)
  }

  /** Rows with score < t. */
  function CountBelow(rows: seq<ScoredLead>, t: int): (n: nat)
    ensures n <= |rows|
  {
    if rows == [] then 0 else (if rows[0].score < t then 1 else 0) + CountBelow(rows[1..], t)
  }

  /** Rows whose Priority column is `p`. */
  function CountTier(rows: seq<ScoredLead>, p: Priority): (n: nat)
    ensures n <= |rows|
  {
    if rows == [] then 0 else (if rows[0].priority == p then 1 else 0) + CountTier(rows[1..], p)
  }

  /** Each count, taken over the rows from `k` on, adds the row at `k` to the
      count over the rows after it. */
  lemma CountsStep(rows: seq<ScoredLead>, k: nat)
    requires k < |rows|
    ensures CountValid(rows[k..]) == (if rows[k].emailValid then 1 else 0) + CountValid(rows[k + 1..])
    ensures CountAtLeast(rows[k..], 75) == (if rows[k].score >= 75 then 1 else 0) + CountAtLeast(rows[k + 1..], 75)
    ensures CountInRange(rows[k..], 50, 75) == (if 50 <= rows[k].score < 75 then 1 else 0)
                                              + CountInRange(rows[k + 1..], 50, 75)
    ensures CountBelow(rows[k..], 50) == (if rows[k].score < 50 then 1 else 0) + CountBelow(rows[k + 1..], 50)
  {
    assert rows[k..][1..] == rows[k + 1..];
  }

  /** Every row is in exactly one of the three score bands, so the low count
      the report derives by subtraction is the number of scores below 50. */
  lemma {:induction false} BandsPartitionRows(rows: seq<ScoredLead>)
    ensures CountAtLeast(rows, 75) + CountInRange(rows, 50, 75) + CountBelow(rows, 50) == |rows|
  {
    if rows != [] {
      BandsPartitionRows(rows[1..]);
    }
  }

  /** When the Priority column was filled by priority_label, the three
      counts are the numbers of High, Medium and Low rows. */
  lemma {:induction false} BandsAreTiers(rows: seq<ScoredLead>)
    requires forall i :: 0 <= i < |rows| ==> rows[i].priority == PriorityLabel(rows[i].score)
    ensures CountAtLeast(rows, 75) == CountTier(rows, High)
    ensures CountInRange(rows, 50, 75) == CountTier(rows, Medium)
    ensures CountBelow(rows, 50) == CountTier(rows, Low)
  {
    if rows != [] {
      BandsAreTiers(rows[1..]);
    }
  }

  /** Scored rows never reach 75, so the high count is 0. */
  lemma {:induction false} NoHighRows(rows: seq<ScoredLead>)
    requires forall i :: 0 <= i < |rows| ==> rows[i].score <= 70
    ensures CountAtLeast(rows, 75) == 0
  {
    if rows != [] {
      NoHighRows(rows[1..]);
    }
  }

  // ---------------------------------------------------------------------
  // Rendering integers and lines

  function DigitChar(d: nat): (c: char)
    requires d < 10
    ensures IsDigit(c)
  {
    "0123456789"[d]
  }

  function DigitValue(c: char): nat {
    var v := c as int - '0' as int;
    if 0 <= v < 10 then v else 0
  }

  /** Decimal digits of `n`, most significant first, no leading zero. */
  function Digits(n: nat): (r: string)
    ensures r != [] && (|r| > 1 ==> r[0] != '0')
    ensures forall k :: 0 <= k < |r| ==> IsDigit(r[k])
  {
    if n < 10 then [DigitChar(n)] else Digits(n / 10) + [DigitChar(n % 10)]
  }

  /** str() of an integer. */
  function Decimal(n: int): string {
    if n < 0 then "-" + Digits(-n) else Digits(n)
  }

  function ParseDigits(s: string): nat {
    if s == [] then 0 else 10 * ParseDigits(s[..|s| - 1]) + DigitValue(s[|s| - 1])
  }

  function ParseDecimal(s: string): int {
    if s != [] && s[0] == '-' then -(ParseDigits(s[1..]) as int) else ParseDigits(s)
  }

  lemma {:induction false} DigitsRoundTrip(n: nat)
    ensures ParseDigits(Digits(n)) == n
  {
    if n >= 10 {
      DigitsRoundTrip(n / 10);
      var s := Digits(n);
      assert s[..|s| - 1] == Digits(n / 10);
    }
  }

  /** The numbers in the report read back as the values they render. */
  lemma DecimalRoundTrip(n: int)
    ensures ParseDecimal(Decimal(n)) == n
  {
    if n < 0 {
      var d := Digits(-n);
      DigitsRoundTrip(-n);
      assert ("-" + d)[1..] == d;
    } else {
      DigitsRoundTrip(n);
    }
  }

  /** One leaderboard line: "- Company | Email | Score: n | LinkedIn". */
  function LeaderboardLine(row: ScoredLead): string {
    "- " + row.company + " | " + row.email + " | Score: " + Decimal(row.score) + " | " + row.linkedIn
  }

  /** The header lines, without the timestamp and average lines. */
  function HeaderLines(total: int, valid: int, high: int, medium: int, low: int): seq<string> {
    [ "Total leads processed: " + Decimal(total),
      "Valid emails: " + Decimal(valid),
      "High priority (>=75): " + Decimal(high),
      "Medium priority (50-74): " + Decimal(medium),
      "Low priority (<50): " + Decimal(low),
      "",
      "Top 5 leads (by score):" ]
  }

  function LeaderboardLines(top: seq<ScoredLead>): (r: seq<string>)
    ensures |r| == |top|
    ensures forall k :: 0 <= k < |top| ==> r[k] == LeaderboardLine(top[k])
  {
    if top == [] then [] else LeaderboardLines(top[..|top| - 1]) + [LeaderboardLine(top[|top| - 1])]
  }

  lemma LeaderboardLinesGrow(top: seq<ScoredLead>, i: nat)
    requires i < |top|
    ensures LeaderboardLines(top[..i + 1]) == LeaderboardLines(top[..i]) + [LeaderboardLine(top[i])]
  {
  }

  /** "\n".join(lines). */
  function JoinLines(lines: seq<string>): string {
    if lines == [] then []
    else if |lines| == 1 then lines[0]
    else lines[0] + "\n" + JoinLines(lines[1..])
  }

  /** str.split("\n"). */
  function SplitLines(s: string): seq<string>
    decreases |s|
  {
    match IndexOf(s, '\n')
    case None => [s]
    case Some(i) => [s[..i]] + SplitLines(s[i + 1..])
  }

  /** Joining lines that hold no newline can be undone by splitting. */
  lemma {:induction false} SplitJoinRoundTrip(lines: seq<string>)
    requires lines != []
    requires forall k :: 0 <= k < |lines| ==> '\n' !in lines[k]
    ensures SplitLines(JoinLines(lines)) == lines
  {
    if |lines| > 1 {
      var l := lines[0];
      var rest := JoinLines(lines[1..]);
      var s := l + "\n" + rest;
      assert s[..|l|] == l;
      assert s[|l| + 1..] == rest;
      assert s[|l|] == '\n';
      forall k | 0 <= k < |l| ensures s[k] != '\n' {
        assert s[k] == l[k];
      }
      match IndexOf(s, '\n')
      case Some(i) =>
        assert i == |l|;
        SplitJoinRoundTrip(lines[1..]);
    }
  }

  // ---------------------------------------------------------------------
  // The report

  function Min(a: int, b: int): int {
    if a < b then a else b
  }

  /** head(5) of the rows sorted by score, highest first. */
  function TopFive(rows: seq<ScoredLead>): seq<ScoredLead> {
    SortByScore(rows)[..Min(5, |rows|)]
  }

  /** The leaderboard has min(5, total) rows, highest score first, all
      drawn from the input, and no row left off it scores above a row on it. */
  lemma TopFiveSpec(rows: seq<ScoredLead>)
    ensures |TopFive(rows)| == Min(5, |rows|)
    ensures NonIncreasing(TopFive(rows))
    ensures multiset(TopFive(rows)) <= multiset(rows)
    ensures forall x, y :: x in multiset(rows) - multiset(TopFive(rows)) && y in TopFive(rows) ==>
              x.score <= y.score
  {
    var t := SortByScore(rows);
    var m := Min(5, |rows|);
    var top := t[..m];
    SortedPrefix(t, m);
    assert multiset(rows) - multiset(top) == multiset(t[m..]);
  }

  /** A prefix of a table sorted by score outranks the rest of it. */
  lemma SortedPrefix(t: seq<ScoredLead>, m: nat)
    requires NonIncreasing(t) && m <= |t|
    ensures multiset(t[..m]) + multiset(t[m..]) == multiset(t)
    ensures forall x, y :: x in t[m..] && y in t[..m] ==> x.score <= y.score
  {
    assert t == t[..m] + t[m..];
    forall x, y | x in t[m..] && y in t[..m] ensures x.score <= y.score {
      var i :| 0 <= i < |t| - m && t[m..][i] == x;
      var j :| 0 <= j < m && t[..m][j] == y;
      assert t[j] == y && t[m + i] == x;
    }
  }

  /** What generate_report returns, with the counts it prints kept as
      fields; `lines` are the report's lines and `text` their join. */
  datatype Report = Report(
    total: nat, valid: nat, high: nat, medium: nat, low: nat,
    top: seq<ScoredLead>, lines: seq<string>, text: string)

  /** The loop that appends one line per leaderboard row. */
  method AppendLeaderboard(header: seq<string>, top: seq<ScoredLead>) returns (lines: seq<string>)
    ensures lines == header + LeaderboardLines(top)
    ensures |lines| == |header| + |top|
  {
    lines := header;
    var i := 0;
    while i < |top|
      invariant 0 <= i <= |top|
      invariant lines == header + LeaderboardLines(top[..i])
    {
      LeaderboardLinesGrow(top, i);
      lines := lines + [LeaderboardLine(top[i])];
      i := i + 1;
    }
    assert top[..i] == top;
  }

  /** generate_report on a frame that has every column. */
  method GenerateReport(rows: seq<ScoredLead>) returns (report: Report)
    ensures report.total == |rows| && report.valid == CountValid(rows)
    ensures report.high == CountAtLeast(rows, 75) && report.medium == CountInRange(rows, 50, 75)
    ensures report.low == CountBelow(rows, 50)
    ensures report.high + report.medium + report.low == report.total
    ensures report.top == TopFive(rows)
    ensures report.lines == HeaderLines(report.total, report.valid, report.high, report.medium, report.low)
                            + LeaderboardLines(report.top)
    ensures |report.lines| == 7 + Min(5, |rows|)
    ensures report.text == JoinLines(report.lines)
    ensures rows == [] ==> report.total == 0 && report.valid == 0 && report.high == 0
                           && report.medium == 0 && report.low == 0 && report.top == []
  {
    var total := |rows|;
    var valid := CountValid(rows);
    var high := CountAtLeast(rows, 75);
    var medium := CountInRange(rows, 50, 75);
    BandsPartitionRows(rows);
    var low := total - high - medium;
    var header := HeaderLines(total, valid, high, medium, low);
    assert |header| == 7;
    var top := TopFive(rows);
    var lines := AppendLeaderboard(header, top);
    report := Report(total, valid, high, medium, low, top, lines, JoinLines(lines));
  }
}
