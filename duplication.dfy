/** `DuplicationDetector` (duplication_detector_service.py): flags pairs of
    Taskbook projects whose text similarity reaches a threshold, with the
    potential savings and severity of each, and summarises them. */
module Duplication {
  import opened Wrappers
  import opened Text
  import opened Numeric
  import opened Sorting
  import opened SimGraph
  import opened PairRanking

  /** A Taskbook row after `fillna('')` on the text columns. */
  datatype Project = Project(title: string, summary: string, methods: string, results: string,
                             conclusion: string, funding: Option<Funding>)

  /** The data frame: its rows, and whether all five text columns exist
      (`df.get(col, '')` of a missing column is a plain string, whose
      `fillna` raises). */
  datatype Frame = Frame(hasTextColumns: bool, rows: seq<Project>)

  /** `combined_text`: the five text fields joined by single spaces. */
  function CombinedText(p: Project): string {
    p.title + " " + p.summary + " " + p.methods + " " + p.results + " " + p.conclusion
  }

  predicate HasText(p: Project) { Strip(CombinedText(p)) != "" }

  /** A row is dropped exactly when all five of its text fields are blank. */
  lemma CombinedBlankIff(p: Project)
    ensures !HasText(p) <==>
      AllSpace(p.title) && AllSpace(p.summary) && AllSpace(p.methods) &&
      AllSpace(p.results) && AllSpace(p.conclusion)
  {
    StripEmptyIff(CombinedText(p));
    var sp := " ";
    assert AllSpace(sp);
    var a, b, c, d, e := p.title, p.summary, p.methods, p.results, p.conclusion;
    AllSpaceConcat(a, sp);
    AllSpaceConcat(a + sp, b);
    AllSpaceConcat(a + sp + b, sp);
    AllSpaceConcat(a + sp + b + sp, c);
    AllSpaceConcat(a + sp + b + sp + c, sp);
    AllSpaceConcat(a + sp + b + sp + c + sp, d);
    AllSpaceConcat(a + sp + b + sp + c + sp + d, sp);
    AllSpaceConcat(a + sp + b + sp + c + sp + d + sp, e);
  }

  /** The rows that keep a non-blank combined text, in order. */
  function KeptRows(rows: seq<Project>): seq<Project> {
    Filter(rows, HasText)
  }

  lemma KeptRowsSpec(rows: seq<Project>, p: Project)
    ensures p in KeptRows(rows) <==> p in rows && HasText(p)
  {
    FilterMembership(rows, HasText, p);
  }

  /** `funding_amount` per row, 0 when the column is missing in a row. */
  function RowFundings(rows: seq<Project>): seq<Funding> {
    FundingsOrZero(rows, (r: Project) => r.funding)
  }

  /** The value of `get_duplication_summary`. `top` is absent (no
      `top_duplicates` key) when there are no duplicates. */
  datatype Summary = Summary(totalDuplicates: nat, totalPotentialSavings: real,
                             severityBreakdown: Breakdown, averageSimilarity: real,
                             top: Option<seq<PairRecord>>)

  /** The value of `get_duplication_analysis`: `data` is `None` (and
      `success` false) when the summary raised. */
  datatype Analysis = Analysis(success: bool, data: Option<Summary>, thresholdUsed: Option<real>)

  /** The summary when nothing reaches the threshold. */
  const NoDuplicates := Summary(0, 0.0, Breakdown(0, 0, 0, 0), 0.0, None)

  /** The summary of a list of duplicates. */
  function Summarize(pairs: seq<PairRecord>): (s: Summary)
    ensures pairs == [] ==> s == NoDuplicates
    ensures pairs != [] ==> s.top == Some(Take(pairs, 5)) && |s.top.value| <= 5
    ensures s.totalDuplicates == |pairs| && Total(s.severityBreakdown) == |pairs|
    ensures s.totalPotentialSavings == Sum(SavingsOf(pairs))
  {
    if pairs == [] then NoDuplicates
    else
      var b := CountSeverities(pairs);
      CountSeveritiesTotal(pairs);
      Summary(|pairs|, Sum(SavingsOf(pairs)), b, AverageScore(pairs), Some(Take(pairs, 5)))
  }

  /** What `get_duplication_summary` returns for matrix `m` and fundings
      `fund`; `None` when it raises. */
  function DuplicationSummary(m: Matrix, fund: seq<Funding>, t: real): Option<Summary>
    requires IsSquare(m)
  {
    match SimilarPairs(m, fund, t)
    case None => None
    case Some(pairs) => Some(Summarize(pairs))
  }

  /** The average of a summary is the rounded mean of the scores. */
  lemma SummarizeAverage(pairs: seq<PairRecord>)
    ensures Summarize(pairs).averageSimilarity == AverageScore(pairs)
    ensures Summarize(pairs).severityBreakdown == CountSeverities(pairs)
  {
  }

  class DuplicationDetector {
    var df: Option<Frame>
    var matrix: Option<Matrix>

    /** The similarity matrix, when present, is square (it is the output of
        `cosine_similarity`) and was computed from a loaded frame, which is
        never unloaded; it need not match the current frame. */
    predicate Valid()
      reads this
    {
      matrix.Some? ==> IsSquare(matrix.value) && df.Some?
    }

    constructor()
      ensures df.None? && matrix.None? && Valid()
    {
      df := None;
      matrix := None;
    }

    /** `load_taskbook_data` with the CSV contents (`None` when neither
        file exists). */
    method LoadTaskbookData(csv: Option<Frame>) returns (ok: bool)
      modifies this
      ensures ok == csv.Some?
      requires Valid()
      ensures Valid()
      ensures df == if ok then csv else old(df)
      ensures matrix == old(matrix)
    {
      if csv.None? {
        return false;
      }
      df := csv;
      ok := true;
    }

    /** `prepare_text_features`; `sim` is the matrix TF-IDF and cosine
        similarity produce for the kept rows, `None` when the vectoriser
        raises (an empty vocabulary, as when every text is a stop word), which
        is caught and reported as failure after the rows were filtered. */
    method PrepareTextFeatures(sim: Option<Matrix>) returns (ok: bool)
      requires df.Some? && df.value.hasTextColumns && sim.Some? ==>
        IsSquare(sim.value) && |sim.value| == |KeptRows(df.value.rows)|
      requires Valid()
      modifies this
      ensures Valid()
      ensures old(df).None? || !old(df).value.hasTextColumns ==> !ok && df == old(df) && matrix == old(matrix)
      ensures old(df).Some? && old(df).value.hasTextColumns ==>
        df == Some(Frame(true, KeptRows(old(df).value.rows))) &&
        ok == (|KeptRows(old(df).value.rows)| > 0 && sim.Some?) &&
        matrix == if ok then sim else old(matrix)
    {
      if df.None? || !df.value.hasTextColumns {
        return false;
      }
      var kept := KeptRows(df.value.rows);
      df := Some(Frame(true, kept));
      if |kept| == 0 || sim.None? {
        return false;
      }
      matrix := sim;
      ok := true;
    }

    /** `detect_duplicates`: no duplicates without a matrix; `None` when it
        raises (a frame larger than the matrix). */
    method DetectDuplicates(t: real) returns (r: Option<seq<PairRecord>>)
      requires Valid()
      ensures matrix.None? ==> r == Some([])
      ensures matrix.Some? ==> r == SimilarPairs(matrix.value, RowFundings(df.value.rows), t)
    {
      if matrix.None? {
        return Some([]);
      }
      var m := matrix.value;
      var fund := RowFundings(df.value.rows);
      if |fund| > |m| {
        if |fund| >= 2 {
          return None;
        }
        return Some([]);
      }
      var pairs := FindPairs(Block(m, |fund|), fund, t);
      r := Some(pairs);
    }

    /** `get_duplication_summary`; `None` when `detect_duplicates` raises. */
    method GetDuplicationSummary(t: real) returns (r: Option<Summary>)
      requires Valid()
      ensures matrix.None? ==> r == Some(NoDuplicates)
      ensures matrix.Some? ==> r == DuplicationSummary(matrix.value, RowFundings(df.value.rows), t)
    {
      var d := DetectDuplicates(t);
      if d.None? {
        return None;
      }
      var pairs := d.value;
      if pairs == [] {
        return Some(NoDuplicates);
      }
      var breakdown := Tally(pairs);
      r := Some(Summary(|pairs|, Sum(SavingsOf(pairs)), breakdown, Round3(Mean(ScoresOf(pairs))), Some(Take(pairs, 5))));
    }

    /** `get_duplication_analysis`: success with the threshold, or failure
        without data when the summary raised. */
    method GetDuplicationAnalysis(t: real) returns (a: Analysis)
      requires Valid()
      ensures a.success <==> a.data.Some?
      ensures a.success ==> a.thresholdUsed == Some(t)
      ensures !a.success ==> a.thresholdUsed.None?
      ensures matrix.None? ==> a == Analysis(true, Some(NoDuplicates), Some(t))
      ensures matrix.Some? ==> a.data == DuplicationSummary(matrix.value, RowFundings(df.value.rows), t)
    {
      var s := GetDuplicationSummary(t);
      a := Analysis(s.Some?, s, if s.Some? then Some(t) else None);
    }
  }

  /** When the matrix was computed for the current rows (right after a
      successful preparation) the summary exists and reports exactly the
      pairs above the threshold. */
  lemma {:induction false} PreparedSummary(m: Matrix, rows: seq<Project>, t: real, u: nat, v: nat)
    requires IsSquare(m) && |m| == |rows|
    ensures var fund := RowFundings(rows);
      DuplicationSummary(m, fund, t) == Some(Summarize(ReportedPairs(m, fund, t))) &&
      ((exists r :: r in ReportedPairs(m, fund, t) && r.index1 == u && r.index2 == v) <==> Above(m, t, u, v))
  {
    BlockWhole(m);
    ReportedPairsExact(m, RowFundings(rows), t, u, v);
  }

  /** A matrix left over from a smaller frame makes the analysis fail as
      soon as the frame has two rows. */
  lemma StaleMatrixFails(m: Matrix, rows: seq<Project>, t: real)
    requires IsSquare(m) && |rows| > |m| && |rows| >= 2
    ensures DuplicationSummary(m, RowFundings(rows), t).None?
  {
  }

  /** `initialize_duplication_detector`: load, then prepare when the load
      succeeded. */
  method InitializeDuplicationDetector(d: DuplicationDetector, csv: Option<Frame>, sim: Option<Matrix>) returns (ok: bool)
    requires d.Valid()
    requires csv.Some? && csv.value.hasTextColumns && sim.Some? ==>
      IsSquare(sim.value) && |sim.value| == |KeptRows(csv.value.rows)|
    modifies d
    ensures d.Valid()
    ensures ok <==> csv.Some? && csv.value.hasTextColumns && |KeptRows(csv.value.rows)| > 0 && sim.Some?
    ensures ok ==> d.df == Some(Frame(true, KeptRows(csv.value.rows))) && d.matrix == sim
    ensures csv.None? ==> d.df == old(d.df)
    ensures csv.Some? ==> d.df == if csv.value.hasTextColumns then Some(Frame(true, KeptRows(csv.value.rows))) else csv
    ensures !ok ==> d.matrix == old(d.matrix)
  {
    var loaded := d.LoadTaskbookData(csv);
    if !loaded {
      return false;
    }
    ok := d.PrepareTextFeatures(sim);
  }
}
