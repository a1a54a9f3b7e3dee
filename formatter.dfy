/**
 * The first stage, `format_bed_files`: every sample's bedMethyl table (bed9+2: nine BED
 * columns, then read coverage in column 9 and percent methylated in column 10) becomes a
 * 12-column table with the methylated read count and the methylated fraction appended.
 */
module Formatter {
  import opened Common
  import Numbers

  /** A sample as the caller hands it in; its table is the parsed contents of its BED file. */
  datatype Sample = Sample(sampleName: string, bedTable: seq<seq<Cell>>, treatment: bool)

  /** A sample after reformatting: its name, the file its table was written to, its group. */
  datatype ProcessedBED = ProcessedBED(sampleName: string, bedFile: FileRef, treatment: bool)

  /** One reformatted row: the first ten input columns, then the two derived ones. */
  datatype CanonicalRow = CanonicalRow(
    chrom: Cell, start: Cell, end: Cell, name: Cell, score: Cell, strand: Cell,
    thickStart: Cell, thickEnd: Cell, itemRgb: Cell,
    coverage: real, methylatedCount: int, methylatedFraction: real)

  /** The situations in which pandas raises while reformatting a table. */
  datatype FormatError =
    | EmptyTable                  // `read_csv` of a file with no lines
    | TooFewColumns(width: nat)   // `table[10]` on a table narrower than 11 columns
    | NonNumeric(column: nat)     // arithmetic on a column that holds text

  /** A write of a reformatted table to a local file. */
  datatype BedWrite = BedWrite(path: string, rows: seq<CanonicalRow>)

  /** The row as the 12 positional columns it is written with. */
  function Columns(r: CanonicalRow): seq<Cell> {
    [r.chrom, r.start, r.end, r.name, r.score, r.strand, r.thickStart, r.thickEnd, r.itemRgb,
     Num(r.coverage), Num(r.methylatedCount as real), Num(r.methylatedFraction)]
  }

  /** `fillna(0)` on one cell. */
  function FillNa(c: Cell): Cell {
    if c == Na then Num(0.0) else c
  }

  /** A column-9 or column-10 cell after `fillna(0)`. */
  function NumOrZero(c: Cell): real
    requires !c.Text?
  {
    if c.Num? then c.x else 0.0
  }

  /**
   * One row of the reformatted table. The count is `round(col10 * 0.01 * col9)`, the fraction
   * `col10 * 0.01`; a missing operand makes the derived value missing, which `fillna` turns into 0.
   */
  function FormatRow(row: seq<Cell>): (r: CanonicalRow)
    requires |row| >= 11 && !row[9].Text? && !row[10].Text?
    ensures |Columns(r)| == 12
    ensures forall j :: 0 <= j < 10 ==> Columns(r)[j] == (if row[j] == Na then Num(0.0) else row[j])
    ensures Columns(r)[10] ==
      if row[9].Num? && row[10].Num? then Num(Numbers.RoundHalfEven(row[9].x * row[10].x / 100.0) as real)
      else Num(0.0)
    ensures Columns(r)[11] == if row[10].Num? then Num(row[10].x / 100.0) else Num(0.0)
  {
    var count :=
      if row[9].Num? && row[10].Num? then Numbers.RoundHalfEven(row[10].x * 0.01 * row[9].x) else 0;
    var fraction := if row[10].Num? then row[10].x * 0.01 else 0.0;
    CanonicalRow(
      FillNa(row[0]), FillNa(row[1]), FillNa(row[2]), FillNa(row[3]), FillNa(row[4]),
      FillNa(row[5]), FillNa(row[6]), FillNa(row[7]), FillNa(row[8]),
      NumOrZero(row[9]), count, fraction)
  }

  /** Every row reformatted, in order. */
  function FormatRows(rows: seq<seq<Cell>>): (out: seq<CanonicalRow>)
    requires forall i :: 0 <= i < |rows| ==> |rows[i]| >= 11 && !rows[i][9].Text? && !rows[i][10].Text?
    ensures |out| == |rows|
    ensures forall i :: 0 <= i < |rows| ==> out[i] == FormatRow(rows[i])
  {
    if |rows| == 0 then [] else [FormatRow(rows[0])] + FormatRows(rows[1..])
  }

  /**
   * The whole-table transform of one sample. Column 10 is read first, so a narrow table fails
   * there; text in column 10, then in column 9, makes the multiplication fail.
   */
  function FormatTable(rows: seq<seq<Cell>>): (r: Result<seq<CanonicalRow>, FormatError>)
    requires Rectangular(rows)
    ensures r == Failure(EmptyTable) <==> |rows| == 0
    ensures r.Failure? && r.error.TooFewColumns? ==> r.error.width == |rows[0]| < 11
    ensures r == Failure(NonNumeric(10)) ==>
      |rows| > 0 && |rows[0]| >= 11 && exists i :: 0 <= i < |rows| && rows[i][10].Text?
    ensures r == Failure(NonNumeric(9)) ==>
      |rows| > 0 && |rows[0]| >= 11 &&
      (exists i :: 0 <= i < |rows| && rows[i][9].Text?) && forall i :: 0 <= i < |rows| ==> !rows[i][10].Text?
    ensures r.Failure? && r.error.NonNumeric? ==> r.error.column == 9 || r.error.column == 10
    ensures r.Success? ==> |r.value| == |rows|
  {
    if |rows| == 0 then Failure(EmptyTable)
    else if |rows[0]| < 11 then Failure(TooFewColumns(|rows[0]|))
    else if exists i :: 0 <= i < |rows| && rows[i][10].Text? then Failure(NonNumeric(10))
    else if exists i :: 0 <= i < |rows| && rows[i][9].Text? then Failure(NonNumeric(9))
    else Success(FormatRows(rows))
  }

  /**
   * The table transform succeeds exactly on a non-empty table at least 11 columns wide without
   * text in columns 9 and 10; it then keeps the number and the order of the rows.
   */
  lemma FormatTableSpec(rows: seq<seq<Cell>>)
    requires Rectangular(rows)
    ensures FormatTable(rows).Success? <==>
      |rows| > 0 && |rows[0]| >= 11 &&
      forall i :: 0 <= i < |rows| ==> !rows[i][9].Text? && !rows[i][10].Text?
    ensures FormatTable(rows).Success? ==>
      |FormatTable(rows).value| == |rows| &&
      forall i :: 0 <= i < |rows| ==> FormatTable(rows).value[i] == FormatRow(rows[i])
  {
  }

  /** On valid input (a whole read count, a percentage in 0..100) the count lies between 0 and the coverage. */
  lemma MethylatedCountBounded(row: seq<Cell>, coverage: nat, percent: real)
    requires |row| >= 11 && row[9] == Num(coverage as real) && row[10] == Num(percent)
    requires 0.0 <= percent <= 100.0
    ensures 0 <= FormatRow(row).methylatedCount <= coverage
    ensures 0.0 <= FormatRow(row).methylatedFraction <= 1.0
  {
    var x := percent * 0.01 * coverage as real;
    assert 0.0 <= x <= coverage as real by {
      assert percent * 0.01 <= 1.0;
    }
    Numbers.RoundHalfEvenWithin(x, 0, coverage);
  }

  /** A row with coverage 10 and 50 percent methylated gets count 5 and fraction 0.5. */
  lemma HalfMethylatedRow(row: seq<Cell>)
    requires |row| >= 11 && row[9] == Num(10.0) && row[10] == Num(50.0)
    ensures FormatRow(row).methylatedCount == 5
    ensures FormatRow(row).methylatedFraction == 0.5
  {
    Numbers.RoundHalfEvenUnique(5.0, 5);
  }

  /** `<track>/processed_beds`, resolved against the working directory, plus `/<sample>.bed`. */
  function LocalBedPath(workDir: string, trackName: string, sampleName: string): string {
    Resolve(workDir, trackName + "/processed_beds") + "/" + sampleName + ".bed"
  }

  /**
   * An empty track name makes `/processed_beds` an absolute path, so the files go under the
   * root and not under the working directory.
   */
  lemma EmptyTrackNameBedPath(workDir: string, sampleName: string)
    ensures LocalBedPath(workDir, "", sampleName) == "/processed_beds/" + sampleName + ".bed"
  {
    assert "" + "/processed_beds" == "/processed_beds";
  }

  /** A relative track name puts the files under the working directory. */
  lemma RelativeBedPath(workDir: string, trackName: string, sampleName: string)
    requires |trackName| > 0 && trackName[0] != '/'
    ensures LocalBedPath(workDir, trackName, sampleName) == workDir + "/" + trackName + "/processed_beds/" + sampleName + ".bed"
  {
    assert (trackName + "/processed_beds")[0] == trackName[0];
  }

  /** `<remote>/<track>/processed_beds/<sample>.bed`. */
  function RemoteBedPath(remoteDir: string, trackName: string, sampleName: string): string {
    remoteDir + "/" + trackName + "/processed_beds/" + sampleName + ".bed"
  }

  /** Samples with different names are written to different files, locally and remotely. */
  lemma {:induction false} BedPathsDistinct(workDir: string, remoteDir: string, trackName: string, a: string, b: string)
    requires a != b
    ensures LocalBedPath(workDir, trackName, a) != LocalBedPath(workDir, trackName, b)
    ensures RemoteBedPath(remoteDir, trackName, a) != RemoteBedPath(remoteDir, trackName, b)
  {
    var lp := Resolve(workDir, trackName + "/processed_beds") + "/";
    var rp := remoteDir + "/" + trackName + "/processed_beds/";
    SuffixedDistinct(lp, a, b);
    SuffixedDistinct(rp, a, b);
    assert LocalBedPath(workDir, trackName, a) == lp + a + ".bed";
    assert RemoteBedPath(remoteDir, trackName, a) == rp + a + ".bed";
  }

  lemma SuffixedDistinct(p: string, a: string, b: string)
    requires a != b
    ensures p + a + ".bed" != p + b + ".bed"
  {
    if |a| == |b| {
      assert (p + a + ".bed")[|p|..|p| + |a|] == a;
      assert (p + b + ".bed")[|p|..|p| + |b|] == b;
    }
  }

  /** What `format_bed_files` returns for one sample once its table has been written. */
  function Processed(s: Sample, remoteDir: string, workDir: string, trackName: string): ProcessedBED {
    ProcessedBED(s.sampleName,
      FileRef(LocalBedPath(workDir, trackName, s.sampleName), RemoteBedPath(remoteDir, trackName, s.sampleName)),
      s.treatment)
  }

  /**
   * `format_bed_files`: one `ProcessedBED` per sample, in order, each table written to its
   * sample's file. The first sample whose table fails stops the run; `writes` lists, in order,
   * the files written until then.
   */
  method FormatBedFiles(samples: seq<Sample>, remoteDir: string, workDir: string, trackName: string)
    returns (result: Result<seq<ProcessedBED>, FormatError>, writes: seq<BedWrite>)
    requires forall i :: 0 <= i < |samples| ==> Rectangular(samples[i].bedTable)
    ensures result.Success? <==> forall i :: 0 <= i < |samples| ==> FormatTable(samples[i].bedTable).Success?
    ensures result.Success? ==>
      |result.value| == |samples| && |writes| == |samples| &&
      forall i :: 0 <= i < |samples| ==>
        result.value[i] == Processed(samples[i], remoteDir, workDir, trackName) &&
        writes[i] == BedWrite(LocalBedPath(workDir, trackName, samples[i].sampleName),
                              FormatTable(samples[i].bedTable).value)
    ensures result.Failure? ==>
      |writes| < |samples| &&
      FormatTable(samples[|writes|].bedTable) == Failure(result.error) &&
      forall i :: 0 <= i < |writes| ==>
        FormatTable(samples[i].bedTable).Success? &&
        writes[i] == BedWrite(LocalBedPath(workDir, trackName, samples[i].sampleName),
                              FormatTable(samples[i].bedTable).value)
  {
    var beds: seq<ProcessedBED> := [];
    writes := [];
    var i := 0;
    while i < |samples|
      invariant 0 <= i <= |samples|
      invariant |beds| == i && |writes| == i
      invariant forall j :: 0 <= j < i ==>
        FormatTable(samples[j].bedTable).Success? &&
        beds[j] == Processed(samples[j], remoteDir, workDir, trackName) &&
        writes[j] == BedWrite(LocalBedPath(workDir, trackName, samples[j].sampleName),
                              FormatTable(samples[j].bedTable).value)
    {
      var s := samples[i];
      var table := FormatTable(s.bedTable);
      if table.Failure? {
        result := Failure(table.error);
        return;
      }
      var path := Resolve(workDir, trackName + "/processed_beds") + "/" + s.sampleName + ".bed";
      writes := writes + [BedWrite(path, table.value)];
      var remote := remoteDir + "/" + trackName + "/processed_beds/" + s.sampleName + ".bed";
      beds := beds + [ProcessedBED(s.sampleName, FileRef(path, remote), s.treatment)];
      i := i + 1;
    }
    result := Success(beds);
  }
}
