/** The pair report shared by the paper-similarity and duplication services:
    every thresholded pair i < j becomes a record with the rounded score,
    the smaller of the two fundings as potential savings and a severity
    label, and the list is sorted by rounded score, highest first. */
module PairRanking {
  import opened Wrappers
  import opened Text
  import opened Numeric
  import opened Sorting
  import opened SimGraph

  // ---------------------------------------------------------------------
  // Severity

  datatype Severity = Critical | High | Medium | Low

  function Rank(s: Severity): nat {
    match s
    case Critical => 3
    case High => 2
    case Medium => 1
    case Low => 0
  }

  /** `_calculate_severity`.  Because each row's thresholds are implied by the
      row above, the top-to-bottom chain amounts to independent tests: the
      severity is at least a level exactly when both that level's thresholds
      (inclusive) are met. */
  function CalculateSeverity(sim: real, savings: real): (r: Severity)
    ensures Rank(r) >= 3 <==> sim >= 0.9 && savings >= 100000.0
    ensures Rank(r) >= 2 <==> sim >= 0.8 && savings >= 50000.0
    ensures Rank(r) >= 1 <==> sim >= 0.7 && savings >= 10000.0
  {
    if sim >= 0.9 && savings >= 100000.0 then Critical
    else if sim >= 0.8 && savings >= 50000.0 then High
    else if sim >= 0.7 && savings >= 10000.0 then Medium
    else Low
  }

  /** A more similar pair with at least the same savings is never less severe. */
  lemma SeverityMonotone(sim1: real, sav1: real, sim2: real, sav2: real)
    requires sim1 <= sim2 && sav1 <= sav2
    ensures Rank(CalculateSeverity(sim1, sav1)) <= Rank(CalculateSeverity(sim2, sav2))
  {
  }

  // ---------------------------------------------------------------------
  // Funding values

  /** A `funding_amount` cell: a number, or a string such as "$1,200,000". */
  datatype Funding = Amount(value: real) | Text(text: string)

  /** `funding_amount` per record, 0 where a record has none. */
  function FundingsOrZero<T>(rows: seq<T>, funding: T -> Option<Funding>): (fs: seq<Funding>)
    ensures |fs| == |rows|
    ensures forall k :: 0 <= k < |rows| ==> fs[k] == funding(rows[k]).GetOr(Amount(0.0))
  {
    if rows == [] then [] else [funding(rows[0]).GetOr(Amount(0.0))] + FundingsOrZero(rows[1..], funding)
  }

  function Pow10(k: nat): (r: nat)
    ensures r >= 1
  {
    if k == 0 then 1 else 10 * Pow10(k - 1)
  }

  function IndexOf(s: string, c: char): (i: nat)
    ensures i <= |s|
    ensures i < |s| ==> s[i] == c
    ensures forall k :: 0 <= k < i ==> s[k] != c
  {
    if s == [] then 0 else if s[0] == c then 0 else 1 + IndexOf(s[1..], c)
  }

  /** An unsigned decimal: digits, optionally a point and more digits, at least one digit. */
  function ParseUnsigned(s: string): Option<real> {
    var i := IndexOf(s, '.');
    if i == |s| then
      if s != [] && AllDigits(s) then Some(DigitsValue(s) as real) else None
    else
      var ip, fp := s[..i], s[i + 1..];
      if |ip| + |fp| > 0 && AllDigits(ip) && AllDigits(fp)
      then Some(DigitsValue(ip) as real + DigitsValue(fp) as real / Pow10(|fp|) as real)
      else None
  }

  /** Python `float(s)` on plain decimal literals: surrounding whitespace and
      one leading sign are allowed. */
  function ParseFloat(s: string): Option<real> {
    var t := Strip(s);
    if t != [] && (t[0] == '-' || t[0] == '+') then
      match ParseUnsigned(t[1..])
      case Some(x) => Some(if t[0] == '-' then -x else x)
      case None => None
    else ParseUnsigned(t)
  }

  lemma DigitsUnstripped(s: string)
    requires s != [] && AllDigits(s)
    ensures Strip(s) == s
  {
    assert !IsSpace(s[0]) && !IsSpace(s[|s| - 1]) by {
      assert IsDigit(s[0]) && IsDigit(s[|s| - 1]);
    }
    assert StripLeft(s) == s;
    assert StripRight(s) == s;
  }

  lemma DigitsNoPoint(s: string)
    requires AllDigits(s)
    ensures IndexOf(s, '.') == |s|
  {
  }

  /** A plain run of digits parses to its decimal value. */
  lemma ParseFloatDigits(s: string)
    requires s != [] && AllDigits(s)
    ensures ParseFloat(s) == Some(DigitsValue(s) as real)
  {
    DigitsUnstripped(s);
    DigitsNoPoint(s);
    assert IsDigit(s[0]);
  }

  /** Parsing what an integer amount prints as gives the amount back. */
  lemma ParseFloatDecimal(k: nat)
    ensures ParseFloat(NatToString(k)) == Some(k as real)
  {
    NatToStringValue(k);
    ParseFloatDigits(NatToString(k));
  }

  /** One cell as the source converts it: a string loses every '$' and ','
      and goes through `float`, an empty string counts as 0; `None` is the
      exception `float` raises. */
  function ParseFunding(f: Funding): Option<real> {
    match f
    case Amount(x) => Some(x)
    case Text(s) => if s == "" then Some(0.0) else ParseFloat(RemoveChar(RemoveChar(s, '$'), ','))
  }

  /** The two fundings of a pair; if either conversion raises, both become 0. */
  function FundingPair(f1: Funding, f2: Funding): (r: (real, real))
    ensures ParseFunding(f1).Some? && ParseFunding(f2).Some? ==> r == (ParseFunding(f1).value, ParseFunding(f2).value)
    ensures ParseFunding(f1).None? || ParseFunding(f2).None? ==> r == (0.0, 0.0)
  {
    match (ParseFunding(f1), ParseFunding(f2))
    case (Some(a), Some(b)) => (a, b)
    case _ => (0.0, 0.0)
  }

  /** A dollar amount written with a '$' and thousands separators parses to its value. */
  lemma ParseFundingDollars(k: nat)
    ensures ParseFunding(Text(['$'] + NatToString(k))) == Some(k as real)
  {
    var d := NatToString(k);
    RemoveCharAbsent(d, '$');
    RemoveCharAbsent(d, ',');
    assert RemoveChar(['$'] + d, '$') == RemoveChar(d, '$');
    ParseFloatDecimal(k);
  }

  lemma {:induction false} RemoveCharAbsent(s: string, c: char)
    requires c !in s
    ensures RemoveChar(s, c) == s
  {
    if s != [] {
      RemoveCharAbsent(s[1..], c);
      assert s == [s[0]] + s[1..];
    }
  }

  // ---------------------------------------------------------------------
  // Pair records

  datatype PairRecord = PairRecord(index1: nat, index2: nat, funding1: real, funding2: real,
                                   score: real, savings: real, severity: Severity)

  predicate ValidPairs(m: Matrix, ps: seq<(nat, nat)>) {
    forall k :: 0 <= k < |ps| ==> ps[k].0 < ps[k].1 < |m|
  }

  /** The record the loop body appends for the pair (i, j). */
  function MakeRecord(m: Matrix, fund: seq<Funding>, i: nat, j: nat): (r: PairRecord)
    requires IsSquare(m) && |fund| == |m| && i < j < |m|
    ensures r.index1 == i && r.index2 == j
    ensures Abs(r.score - m[i][j]) <= 1.0 / 2000.0
    ensures r.savings == Min(r.funding1, r.funding2)
  {
    var (f1, f2) := FundingPair(fund[i], fund[j]);
    var savings := Min(f1, f2);
    PairRecord(i, j, f1, f2, Round3(m[i][j]), savings, CalculateSeverity(m[i][j], savings))
  }

  function Records(m: Matrix, fund: seq<Funding>, ps: seq<(nat, nat)>): (rs: seq<PairRecord>)
    requires IsSquare(m) && |fund| == |m| && ValidPairs(m, ps)
    ensures |rs| == |ps|
    ensures forall k :: 0 <= k < |ps| ==> rs[k] == MakeRecord(m, fund, ps[k].0, ps[k].1)
  {
    if ps == [] then [] else [MakeRecord(m, fund, ps[0].0, ps[0].1)] + Records(m, fund, ps[1..])
  }

  /** Highest rounded score first. */
  function ScoreGe(a: PairRecord, b: PairRecord): bool { a.score >= b.score }

  lemma ScoreGeTotal()
    ensures TotalPreorder(ScoreGe)
  {
  }

  lemma CandidatePairsValid(m: Matrix, t: real)
    ensures ValidPairs(m, CandidatePairs(m, t))
  {
    var ps := CandidatePairs(m, t);
    forall k | 0 <= k < |ps| ensures ps[k].0 < ps[k].1 < |m| {
      PairsBeforeMembership(m, t, |m|, ps[k]);
    }
  }

  /** The report of `find_similar_papers` / `detect_duplicates` for a matrix. */
  function ReportedPairs(m: Matrix, fund: seq<Funding>, t: real): seq<PairRecord>
    requires IsSquare(m) && |fund| == |m|
  {
    CandidatePairsValid(m, t);
    SortBy(Records(m, fund, CandidatePairs(m, t)), ScoreGe)
  }

  /** The top-left n-by-n block of a square matrix. */
  function Block(m: Matrix, n: nat): (b: Matrix)
    requires IsSquare(m) && n <= |m|
    ensures IsSquare(b) && |b| == n
    ensures forall i, j :: 0 <= i < n && 0 <= j < n ==> b[i][j] == m[i][j]
  {
    seq(n, i requires 0 <= i < n => m[i][..n])
  }

  /** The pairs `detect_duplicates` and `find_similar_papers` report over
      the current rows with matrix `m`: `None` when the loops index past the
      matrix (it was computed for another frame), which raises `IndexError`. */
  function SimilarPairs(m: Matrix, fund: seq<Funding>, t: real): Option<seq<PairRecord>>
    requires IsSquare(m)
  {
    if |fund| > |m| then (if |fund| >= 2 then None else Some([]))
    else Some(ReportedPairs(Block(m, |fund|), fund, t))
  }

  /** A matrix computed for the current rows is read whole. */
  lemma BlockWhole(m: Matrix)
    requires IsSquare(m)
    ensures Block(m, |m|) == m
  {
    var b := Block(m, |m|);
    forall i | 0 <= i < |m| ensures b[i] == m[i] {
      assert |b[i]| == |m[i]|;
    }
  }

  /** With a matrix computed for the current rows the scan reports exactly
      `ReportedPairs`; a matrix smaller than two or more rows raises. */
  lemma SimilarPairsSpec(m: Matrix, fund: seq<Funding>, t: real)
    requires IsSquare(m)
    ensures |fund| == |m| ==> SimilarPairs(m, fund, t) == Some(ReportedPairs(m, fund, t))
    ensures SimilarPairs(m, fund, t).None? <==> |fund| > |m| && |fund| >= 2
  {
    if |fund| == |m| {
      BlockWhole(m);
    }
  }

  /** The report is ordered by rounded score, highest first. */
  lemma ReportedPairsSorted(m: Matrix, fund: seq<Funding>, t: real)
    requires IsSquare(m) && |fund| == |m|
    ensures var r := ReportedPairs(m, fund, t);
      forall a, b :: 0 <= a < b < |r| ==> r[a].score >= r[b].score
  {
    CandidatePairsValid(m, t);
    ScoreGeTotal();
    SortBySorted(Records(m, fund, CandidatePairs(m, t)), ScoreGe);
  }

  /** Pairs with the same rounded score keep the loop order (the sort is stable). */
  lemma ReportedPairsStable(m: Matrix, fund: seq<Funding>, t: real, v: PairRecord)
    requires IsSquare(m) && |fund| == |m|
    ensures ValidPairs(m, CandidatePairs(m, t)) &&
      TiesWith(ReportedPairs(m, fund, t), v, ScoreGe) == TiesWith(Records(m, fund, CandidatePairs(m, t)), v, ScoreGe)
  {
    CandidatePairsValid(m, t);
    ScoreGeTotal();
    SortByStable(Records(m, fund, CandidatePairs(m, t)), v, ScoreGe);
  }

  /** A pair (i, j) is reported, with its record, exactly when i < j and
      sim[i][j] reaches the threshold. */
  lemma ReportedPairsExact(m: Matrix, fund: seq<Funding>, t: real, i: nat, j: nat)
    requires IsSquare(m) && |fund| == |m|
    ensures (exists r :: r in ReportedPairs(m, fund, t) && r.index1 == i && r.index2 == j)
            <==> Above(m, t, i, j)
    ensures Above(m, t, i, j) ==> MakeRecord(m, fund, i, j) in ReportedPairs(m, fund, t)
  {
    CandidatePairsValid(m, t);
    var ps := CandidatePairs(m, t);
    var recs := Records(m, fund, ps);
    assert multiset(ReportedPairs(m, fund, t)) == multiset(recs);
    if r :| r in ReportedPairs(m, fund, t) && r.index1 == i && r.index2 == j {
      assert r in multiset(recs);
      var k :| 0 <= k < |recs| && recs[k] == r;
      PairsBeforeMembership(m, t, |m|, ps[k]);
    }
    if Above(m, t, i, j) {
      CandidatePairsExact(m, t, i, j);
      var k :| 0 <= k < |ps| && ps[k] == (i, j);
      assert recs[k] == MakeRecord(m, fund, i, j);
      assert recs[k] in multiset(ReportedPairs(m, fund, t));
    }
  }

  /** Every reported record is the loop body's record for a thresholded pair. */
  lemma ReportedRecordShape(m: Matrix, fund: seq<Funding>, t: real, r: PairRecord)
    requires IsSquare(m) && |fund| == |m| && r in ReportedPairs(m, fund, t)
    ensures Above(m, t, r.index1, r.index2) && r == MakeRecord(m, fund, r.index1, r.index2)
  {
    CandidatePairsValid(m, t);
    var ps := CandidatePairs(m, t);
    var recs := Records(m, fund, ps);
    assert r in multiset(recs);
    var k :| 0 <= k < |recs| && recs[k] == r;
    PairsBeforeMembership(m, t, |m|, ps[k]);
  }

  /** A higher threshold reports a subset of the pairs. */
  lemma ReportedPairsMonotone(m: Matrix, fund: seq<Funding>, t1: real, t2: real, r: PairRecord)
    requires IsSquare(m) && |fund| == |m| && t1 <= t2 && r in ReportedPairs(m, fund, t2)
    ensures r in ReportedPairs(m, fund, t1)
  {
    ReportedRecordShape(m, fund, t2, r);
    ReportedPairsExact(m, fund, t1, r.index1, r.index2);
  }

  lemma RowPairsValid(m: Matrix, t: real, i: nat, j: nat)
    ensures ValidPairs(m, RowPairs(m, t, i, j))
  {
    var ps := RowPairs(m, t, i, j);
    forall k | 0 <= k < |ps| ensures ps[k].0 < ps[k].1 < |m| {
      RowPairsMembership(m, t, i, j, ps[k]);
    }
  }

  lemma PairsBeforeValid(m: Matrix, t: real, i: nat)
    requires i <= |m|
    ensures ValidPairs(m, PairsBefore(m, t, i))
  {
    var ps := PairsBefore(m, t, i);
    forall k | 0 <= k < |ps| ensures ps[k].0 < ps[k].1 < |m| {
      PairsBeforeMembership(m, t, i, ps[k]);
    }
  }

  /** The inner loop `for j in range(i + 1, n)`: appends row i's records. */
  method ScanRow(m: Matrix, fund: seq<Funding>, t: real, i: nat) returns (row: seq<PairRecord>)
    requires IsSquare(m) && |fund| == |m| && i < |m|
    ensures ValidPairs(m, RowPairs(m, t, i, |m|))
    ensures row == Records(m, fund, RowPairs(m, t, i, |m|))
  {
    var n := |m|;
    row := [];
    var j := i + 1;
    while j < n
      invariant i + 1 <= j <= n
      invariant ValidPairs(m, RowPairs(m, t, i, j))
      invariant row == Records(m, fund, RowPairs(m, t, i, j))
    {
      RowRecordsStep(m, fund, t, i, j);
      if m[i][j] >= t {
        row := row + [MakeRecord(m, fund, i, j)];
      }
      j := j + 1;
    }
    assert j == n;
  }

  /** Column j adds the record of (i, j) to row i exactly when sim[i][j]
      reaches the threshold. */
  lemma RowRecordsStep(m: Matrix, fund: seq<Funding>, t: real, i: nat, j: nat)
    requires IsSquare(m) && |fund| == |m| && i < j < |m|
    ensures ValidPairs(m, RowPairs(m, t, i, j)) && ValidPairs(m, RowPairs(m, t, i, j + 1))
    ensures Records(m, fund, RowPairs(m, t, i, j + 1)) ==
      Records(m, fund, RowPairs(m, t, i, j)) + (if m[i][j] >= t then [MakeRecord(m, fund, i, j)] else [])
  {
    RowPairsValid(m, t, i, j);
    RowPairsValid(m, t, i, j + 1);
    var before := RowPairs(m, t, i, j);
    var tail: seq<(nat, nat)> := if m[i][j] >= t then [(i, j)] else [];
    assert RowPairs(m, t, i, j + 1) == before + tail;
    RecordsAppend(m, fund, before, tail);
    assert Records(m, fund, tail) == if m[i][j] >= t then [MakeRecord(m, fund, i, j)] else [];
  }

  /** The nested `for i` / `for j in range(i + 1, n)` loops followed by
      `sort(key=score, reverse=True)`. */
  method FindPairs(m: Matrix, fund: seq<Funding>, t: real) returns (pairs: seq<PairRecord>)
    requires IsSquare(m) && |fund| == |m|
    ensures pairs == ReportedPairs(m, fund, t)
  {
    var n := |m|;
    var raw: seq<PairRecord> := [];
    var i := 0;
    while i < n
      invariant 0 <= i <= n
      invariant ValidPairs(m, PairsBefore(m, t, i))
      invariant raw == Records(m, fund, PairsBefore(m, t, i))
    {
      var row := ScanRow(m, fund, t, i);
      PairsBeforeRecordsStep(m, fund, t, i);
      raw := raw + row;
      i := i + 1;
    }
    assert i == n;
    pairs := SortBy(raw, ScoreGe);
  }

  /** Row i appends its records to those of the rows before it. */
  lemma PairsBeforeRecordsStep(m: Matrix, fund: seq<Funding>, t: real, i: nat)
    requires IsSquare(m) && |fund| == |m| && i < |m|
    ensures ValidPairs(m, PairsBefore(m, t, i)) && ValidPairs(m, RowPairs(m, t, i, |m|))
    ensures ValidPairs(m, PairsBefore(m, t, i + 1))
    ensures Records(m, fund, PairsBefore(m, t, i + 1)) ==
      Records(m, fund, PairsBefore(m, t, i)) + Records(m, fund, RowPairs(m, t, i, |m|))
  {
    PairsBeforeValid(m, t, i);
    RowPairsValid(m, t, i, |m|);
    assert PairsBefore(m, t, i + 1) == PairsBefore(m, t, i) + RowPairs(m, t, i, |m|);
    RecordsAppend(m, fund, PairsBefore(m, t, i), RowPairs(m, t, i, |m|));
  }

  lemma {:induction false} RecordsAppend(m: Matrix, fund: seq<Funding>, a: seq<(nat, nat)>, b: seq<(nat, nat)>)
    requires IsSquare(m) && |fund| == |m| && ValidPairs(m, a) && ValidPairs(m, b)
    ensures ValidPairs(m, a + b)
    ensures Records(m, fund, a + b) == Records(m, fund, a) + Records(m, fund, b)
  {
    var l, r := Records(m, fund, a + b), Records(m, fund, a) + Records(m, fund, b);
    assert |l| == |r|;
    forall k | 0 <= k < |l| ensures l[k] == r[k] {
      if k < |a| { assert (a + b)[k] == a[k]; } else { assert (a + b)[k] == b[k - |a|]; }
    }
  }

  // ---------------------------------------------------------------------
  // Summary counts

  datatype Breakdown = Breakdown(critical: nat, high: nat, medium: nat, low: nat)

  function Total(b: Breakdown): nat { b.critical + b.high + b.medium + b.low }

  /** The number of pairs with severity `sev`. */
  function CountOf(pairs: seq<PairRecord>, sev: Severity): (c: nat)
    ensures c <= |pairs|
  {
    if pairs == [] then 0 else (if pairs[0].severity == sev then 1 else 0) + CountOf(pairs[1..], sev)
  }

  /** The `severity_breakdown[pair['severity']] += 1` loop. */
  function CountSeverities(pairs: seq<PairRecord>): Breakdown {
    Breakdown(CountOf(pairs, Critical), CountOf(pairs, High), CountOf(pairs, Medium), CountOf(pairs, Low))
  }

  /** Every pair is counted under exactly one severity. */
  lemma {:induction false} CountSeveritiesTotal(pairs: seq<PairRecord>)
    ensures Total(CountSeverities(pairs)) == |pairs|
  {
    if pairs != [] {
      CountSeveritiesTotal(pairs[1..]);
    }
  }

  lemma {:induction false} CountOfAppend(pairs: seq<PairRecord>, x: PairRecord, sev: Severity)
    ensures CountOf(pairs + [x], sev) == CountOf(pairs, sev) + (if x.severity == sev then 1 else 0)
  {
    if pairs != [] {
      assert (pairs + [x])[1..] == pairs[1..] + [x];
      CountOfAppend(pairs[1..], x, sev);
    } else {
      assert pairs + [x] == [x];
    }
  }

  /** The `for pair in pairs: severity_breakdown[pair['severity']] += 1` loop. */
  method Tally(pairs: seq<PairRecord>) returns (b: Breakdown)
    ensures b == CountSeverities(pairs)
  {
    b := Breakdown(0, 0, 0, 0);
    var i := 0;
    while i < |pairs|
      invariant 0 <= i <= |pairs|
      invariant b == CountSeverities(pairs[..i])
    {
      var p := pairs[i];
      assert pairs[..i + 1] == pairs[..i] + [p];
      CountOfAppend(pairs[..i], p, Critical);
      CountOfAppend(pairs[..i], p, High);
      CountOfAppend(pairs[..i], p, Medium);
      CountOfAppend(pairs[..i], p, Low);
      match p.severity {
        case Critical => b := b.(critical := b.critical + 1);
        case High => b := b.(high := b.high + 1);
        case Medium => b := b.(medium := b.medium + 1);
        case Low => b := b.(low := b.low + 1);
      }
      i := i + 1;
    }
    assert i == |pairs|;
    assert pairs[..i] == pairs;
  }

  function SavingsOf(pairs: seq<PairRecord>): (r: seq<real>)
    ensures |r| == |pairs| && forall k :: 0 <= k < |pairs| ==> r[k] == pairs[k].savings
  {
    if pairs == [] then [] else [pairs[0].savings] + SavingsOf(pairs[1..])
  }

  function ScoresOf(pairs: seq<PairRecord>): (r: seq<real>)
    ensures |r| == |pairs| && forall k :: 0 <= k < |pairs| ==> r[k] == pairs[k].score
  {
    if pairs == [] then [] else [pairs[0].score] + ScoresOf(pairs[1..])
  }

  /** The rounded mean of the reported scores, or 0 without pairs. */
  function AverageScore(pairs: seq<PairRecord>): real {
    if pairs == [] then 0.0 else Round3(Mean(ScoresOf(pairs)))
  }

  /** With at least one pair reported at threshold `t`, the average score is
      at least `t` rounded to three decimals. */
  lemma AverageScoreAtLeast(m: Matrix, fund: seq<Funding>, t: real)
    requires IsSquare(m) && |fund| == |m| && ReportedPairs(m, fund, t) != []
    ensures AverageScore(ReportedPairs(m, fund, t)) >= Round3(t)
  {
    var pairs := ReportedPairs(m, fund, t);
    var scores := ScoresOf(pairs);
    var lo := Round3(t);
    forall k | 0 <= k < |scores| ensures lo <= scores[k] {
      ReportedRecordShape(m, fund, t, pairs[k]);
      Round3Monotone(t, m[pairs[k].index1][pairs[k].index2]);
    }
    MeanAtLeast(scores, lo);
    Round3Monotone(lo, Mean(scores));
    Round3Idempotent(t);
  }
}
