/**
 * The third stage, `create_track` with `interpolate_color`: the DMR table of the statistics
 * engine becomes an IGV track, one BED row per region, coloured from red (lowest p-value) to
 * blue (highest p-value), under a track header line.
 */
module TrackBuilder {
  import opened Common
  import opened Text
  import Numbers

  /** The results CSV as pandas reads it: the first line gives the column names. */
  datatype ResultsTable = ResultsTable(header: seq<string>, rows: seq<seq<Cell>>)

  /** Every row is as wide as the header, and there is at least one row. */
  predicate WellFormed(t: ResultsTable) {
    |t.rows| > 0 && forall i :: 0 <= i < |t.rows| ==> |t.rows[i]| == |t.header|
  }

  /** A results row after the positional relabelling to the seven fixed names. */
  datatype DmrRow = DmrRow(chrom: Cell, start: Cell, end: Cell, strand: Cell,
                           pvalue: Cell, qvalue: Cell, methDiff: Cell)

  /** A normalised p-value; NaN where the p-value is missing and the scale is not degenerate. */
  datatype Norm = NaN | Val(v: real)

  /** One output row: chr, start, end, name, score, strand, thickStart, thickEnd, itemRgb. */
  datatype TrackRow = TrackRow(chrom: Cell, start: Cell, end: Cell, name: string, score: int,
                               strand: string, thickStart: Cell, thickEnd: Cell, itemRgb: string)

  /** The situations in which `create_track` raises. */
  datatype TrackError =
    | NoResultsFile              // no listed file matched, so `read_csv("")` fails
    | ColumnCountMismatch(width: nat)  // assigning seven column names to another width
    | NonNumericPValue           // min/max and subtraction on a text p-value column
    | NaNToInteger               // `int()` of a NaN normalised value

  /** What `create_track` produces: the output directory, the track file's path and its text. */
  datatype TrackOutput = TrackOutput(dir: DirRef, trackPath: string, content: string)

  const ResultsMarker: string := "DMR_regions.csv"

  // ---------------------------------------------------------------------------------------
  // Choosing the results file

  /** The last path of the listing that contains the marker, or "" when none does. */
  function LastMatch(listing: seq<string>): string {
    if |listing| == 0 then ""
    else if Contains(listing[|listing| - 1], ResultsMarker) then listing[|listing| - 1]
    else LastMatch(listing[..|listing| - 1])
  }

  /**
   * The chosen path is "" exactly when nothing matches; otherwise it is a listed path holding the
   * marker, and no later path holds it.
   */
  lemma {:induction false} LastMatchSpec(listing: seq<string>)
    ensures LastMatch(listing) == "" <==> forall k :: 0 <= k < |listing| ==> !Contains(listing[k], ResultsMarker)
    ensures LastMatch(listing) != "" ==>
      exists k :: 0 <= k < |listing| && listing[k] == LastMatch(listing) &&
        Contains(listing[k], ResultsMarker) &&
        forall j :: k < j < |listing| ==> !Contains(listing[j], ResultsMarker)
  {
    if |listing| > 0 {
      var n := |listing| - 1;
      var front := listing[..n];
      if Contains(listing[n], ResultsMarker) {
        ContainsLength(listing[n], ResultsMarker);
      } else {
        LastMatchSpec(front);
        if LastMatch(front) != "" {
          var k :| 0 <= k < |front| && front[k] == LastMatch(front) &&
            Contains(front[k], ResultsMarker) &&
            forall j :: k < j < |front| ==> !Contains(front[j], ResultsMarker);
          assert listing[k] == front[k];
        }
      }
    }
  }

  /** The loop of `create_track` that keeps the last path containing the marker. */
  method SelectResultsFile(listing: seq<string>) returns (path: string)
    ensures path == LastMatch(listing)
  {
    path := "";
    var i := 0;
    while i < |listing|
      invariant 0 <= i <= |listing|
      invariant path == LastMatch(listing[..i])
    {
      assert listing[..i + 1][..i] == listing[..i];
      var current := listing[i];
      if Contains(current, ResultsMarker) {
        path := current;
      }
      i := i + 1;
    }
    assert listing[..i] == listing;
  }

  // ---------------------------------------------------------------------------------------
  // Relabelling and normalising

  /** `table.columns = [...]`: the seven columns take their names by position. */
  function Relabel(rows: seq<seq<Cell>>): (out: seq<DmrRow>)
    requires forall i :: 0 <= i < |rows| ==> |rows[i]| == 7
    ensures |out| == |rows|
    ensures forall i :: 0 <= i < |rows| ==>
      out[i] == DmrRow(rows[i][0], rows[i][1], rows[i][2], rows[i][3], rows[i][4], rows[i][5], rows[i][6])
  {
    if |rows| == 0 then []
    else
      var r := rows[0];
      [DmrRow(r[0], r[1], r[2], r[3], r[4], r[5], r[6])] + Relabel(rows[1..])
  }

  /** The numeric p-values, which are what pandas' `min` and `max` look at (they skip NaN). */
  function PValues(rows: seq<DmrRow>): (ps: seq<real>)
    ensures forall i :: 0 <= i < |rows| && rows[i].pvalue.Num? ==> rows[i].pvalue.x in ps
  {
    if |rows| == 0 then []
    else
      var rest := PValues(rows[1..]);
      assert forall i :: 1 <= i < |rows| ==> rows[i] == rows[1..][i - 1];
      if rows[0].pvalue.Num? then [rows[0].pvalue.x] + rest else rest
  }

  /** Every value `PValues` lists is the p-value of some row. */
  lemma {:induction false} PValueSource(rows: seq<DmrRow>, k: nat) returns (i: nat)
    requires k < |PValues(rows)|
    ensures i < |rows| && rows[i].pvalue == Num(PValues(rows)[k])
  {
    var rest := PValues(rows[1..]);
    if rows[0].pvalue.Num? && k == 0 {
      i := 0;
    } else {
      var j := PValueSource(rows[1..], if rows[0].pvalue.Num? then k - 1 else k);
      i := j + 1;
    }
  }

  function MinOf(ps: seq<real>): (m: real)
    requires |ps| > 0
    ensures m in ps && forall k :: 0 <= k < |ps| ==> m <= ps[k]
  {
    if |ps| == 1 then ps[0]
    else
      var rest := MinOf(ps[1..]);
      if ps[0] <= rest then ps[0] else rest
  }

  function MaxOf(ps: seq<real>): (m: real)
    requires |ps| > 0
    ensures m in ps && forall k :: 0 <= k < |ps| ==> ps[k] <= m
  {
    if |ps| == 1 then ps[0]
    else
      var rest := MaxOf(ps[1..]);
      if ps[0] >= rest then ps[0] else rest
  }

  /** Min-max scaling of one p-value. */
  function Scale(p: real, lo: real, hi: real): real
    requires lo < hi
  {
    (p - lo) / (hi - lo)
  }

  /** Multiplying by a positive number keeps the sign. */
  lemma SignOfProduct(a: real, d: real)
    requires d > 0.0
    ensures a > 0.0 <==> a * d > 0.0
    ensures a == 0.0 <==> a * d == 0.0
  {
  }

  lemma ScaleTimesRange(p: real, lo: real, hi: real)
    requires lo < hi
    ensures Scale(p, lo, hi) * (hi - lo) == p - lo
  {
  }

  /** Scaling maps [lo, hi] onto [0, 1], lo to 0 and hi to 1, and keeps the order of p-values. */
  lemma ScaleProperties(p: real, q: real, lo: real, hi: real)
    requires lo < hi
    ensures lo <= p <= hi ==> 0.0 <= Scale(p, lo, hi) <= 1.0
    ensures Scale(p, lo, hi) == 0.0 <==> p == lo
    ensures Scale(p, lo, hi) == 1.0 <==> p == hi
    ensures p <= q <==> Scale(p, lo, hi) <= Scale(q, lo, hi)
  {
    var d, sp, sq := hi - lo, Scale(p, lo, hi), Scale(q, lo, hi);
    ScaleTimesRange(p, lo, hi);
    ScaleTimesRange(q, lo, hi);
    assert (sq - sp) * d == q - p;
    assert (1.0 - sp) * d == hi - p;
    SignOfProduct(sp, d);
    SignOfProduct(sq - sp, d);
    SignOfProduct(1.0 - sp, d);
  }

  /**
   * The `normalized` column: 1 everywhere when the smallest and largest p-value are equal,
   * otherwise each p-value min-max scaled. With no numeric p-value at all the minimum and
   * maximum are NaN, unequal to each other, and every row is NaN.
   */
  function Normalized(rows: seq<DmrRow>): (ns: seq<Norm>)
    ensures |ns| == |rows|
  {
    var ps := PValues(rows);
    if |ps| == 0 then seq(|rows|, i => NaN)
    else if MinOf(ps) == MaxOf(ps) then seq(|rows|, i => Val(1.0))
    else
      seq(|rows|, i requires 0 <= i < |rows| =>
        if rows[i].pvalue.Num? then Val(Scale(rows[i].pvalue.x, MinOf(ps), MaxOf(ps))) else NaN)
  }

  /** All the numeric p-values of the table are one and the same value, and there is one. */
  ghost predicate AllPValuesEqual(rows: seq<DmrRow>) {
    (exists i :: 0 <= i < |rows| && rows[i].pvalue.Num?) &&
    forall i, j :: 0 <= i < |rows| && 0 <= j < |rows| && rows[i].pvalue.Num? && rows[j].pvalue.Num? ==>
      rows[i].pvalue.x == rows[j].pvalue.x
  }

  /** The degenerate branch is taken exactly when all numeric p-values are equal. */
  lemma DegenerateExactly(rows: seq<DmrRow>)
    ensures (|PValues(rows)| > 0 && MinOf(PValues(rows)) == MaxOf(PValues(rows))) <==> AllPValuesEqual(rows)
  {
    var ps := PValues(rows);
    if AllPValuesEqual(rows) {
      var i :| 0 <= i < |rows| && rows[i].pvalue.Num?;
      assert rows[i].pvalue.x in ps;
      var a :| 0 <= a < |ps| && ps[a] == MinOf(ps);
      var b :| 0 <= b < |ps| && ps[b] == MaxOf(ps);
      var ra := PValueSource(rows, a);
      var rb := PValueSource(rows, b);
      assert rows[ra].pvalue.x == rows[i].pvalue.x == rows[rb].pvalue.x;
    }
    if |ps| > 0 && MinOf(ps) == MaxOf(ps) {
      var i := PValueSource(rows, 0);
      forall i, j | 0 <= i < |rows| && 0 <= j < |rows| && rows[i].pvalue.Num? && rows[j].pvalue.Num?
        ensures rows[i].pvalue.x == rows[j].pvalue.x
      {
        assert rows[i].pvalue.x in ps && rows[j].pvalue.x in ps;
      }
    }
  }

  /**
   * Outside the degenerate case each row with a numeric p-value is scaled into [0, 1], reaching
   * 0 exactly at the smallest and 1 exactly at the largest p-value; a row without one is NaN.
   */
  lemma NormalizedScaled(rows: seq<DmrRow>, i: nat)
    requires i < |rows|
    requires |PValues(rows)| > 0 && MinOf(PValues(rows)) != MaxOf(PValues(rows))
    ensures rows[i].pvalue.Num? ==>
      var p, lo, hi := rows[i].pvalue.x, MinOf(PValues(rows)), MaxOf(PValues(rows));
      lo < hi && lo <= p <= hi &&
      Normalized(rows)[i] == Val(Scale(p, lo, hi)) &&
      0.0 <= Normalized(rows)[i].v <= 1.0 &&
      (Normalized(rows)[i].v == 0.0 <==> p == lo) &&
      (Normalized(rows)[i].v == 1.0 <==> p == hi)
    ensures !rows[i].pvalue.Num? ==> Normalized(rows)[i] == NaN
  {
    var ps := PValues(rows);
    if rows[i].pvalue.Num? {
      var p := rows[i].pvalue.x;
      assert p in ps;
      var lo, hi := MinOf(ps), MaxOf(ps);
      var a :| 0 <= a < |ps| && ps[a] == p;
      assert lo <= p <= hi;
      ScaleProperties(p, p, lo, hi);
    }
  }

  // ---------------------------------------------------------------------------------------
  // Colour

  /** The red channel: `int((1 - n) * 255)`. */
  function Red(n: real): int {
    Numbers.Trunc((1.0 - n) * 255.0)
  }

  /** The blue channel: `int(n * 255)`. */
  function Blue(n: real): int {
    Numbers.Trunc(n * 255.0)
  }

  /** `interpolate_color`: the string `"R,0,B"`. */
  function InterpolateColor(n: real): (color: string)
    ensures forall k :: 0 <= k < |color| ==> IsDigit(color[k]) || color[k] == ',' || color[k] == '-'
  {
    IntToString(Red(n)) + ",0," + IntToString(Blue(n))
  }

  /** Channel `k` of an `"R,G,B"` string, read back as an integer. */
  function Channel(color: string, k: nat): int {
    var parts := Split(color, ',');
    if k < |parts| then ParseInt(parts[k]) else 0
  }

  /** A colour string has three comma-separated channels: red, 0 for green, blue. */
  lemma ColorChannels(n: real)
    ensures Split(InterpolateColor(n), ',') == [IntToString(Red(n)), "0", IntToString(Blue(n))]
    ensures Channel(InterpolateColor(n), 0) == Red(n)
    ensures Channel(InterpolateColor(n), 1) == 0
    ensures Channel(InterpolateColor(n), 2) == Blue(n)
  {
    var red, blue := IntToString(Red(n)), IntToString(Blue(n));
    var parts := [red, "0", blue];
    IntToStringHasNoSeparator(Red(n), ',');
    IntToStringHasNoSeparator(Blue(n), ',');
    assert parts[1..] == ["0", blue];
    assert parts[1..][1..] == [blue];
    assert Join([','], parts[1..]) == "0" + [','] + blue;
    assert Join([','], parts) == red + [','] + ("0" + [','] + blue);
    assert Join([','], parts) == InterpolateColor(n);
    SplitJoin(parts, ',');
    ParseIntToString(Red(n));
    ParseIntToString(Blue(n));
    ParseIntToString(0);
  }

  /** For a value in [0, 1] both channels lie in 0..255 and add up to 254 or 255. */
  lemma ColorRange(n: real)
    requires 0.0 <= n <= 1.0
    ensures 0 <= Red(n) <= 255 && 0 <= Blue(n) <= 255
    ensures 254 <= Red(n) + Blue(n) <= 255
  {
    var y := n * 255.0;
    assert (1.0 - n) * 255.0 == 255.0 - y;
    assert 0.0 <= y <= 255.0;
  }

  /** 0 is pure red and 1 is pure blue. */
  lemma ColorEndpoints()
    ensures InterpolateColor(0.0) == "255,0,0"
    ensures InterpolateColor(1.0) == "0,0,255"
  {
    assert Red(0.0) == 255 && Blue(0.0) == 0;
    assert Red(1.0) == 0 && Blue(1.0) == 255;
    assert NatToString(255) == NatToString(25) + "5";
    assert NatToString(25) == NatToString(2) + "5";
  }

  /** A larger value never has more red and never has less blue. */
  lemma ColorMonotone(n1: real, n2: real)
    requires n1 <= n2
    ensures Red(n1) >= Red(n2) && Blue(n1) <= Blue(n2)
  {
    Numbers.TruncMonotone((1.0 - n2) * 255.0, (1.0 - n1) * 255.0);
    Numbers.TruncMonotone(n1 * 255.0, n2 * 255.0);
  }

  // ---------------------------------------------------------------------------------------
  // Track rows

  /** `to_csv`'s text for a cell: nothing for NaN, the token for text, `render` for a number. */
  function CellText(c: Cell, render: real -> string): string {
    match c
    case Na => ""
    case Text(s) => s
    case Num(x) => render(x)
  }

  /** Python's `str` of a cell, as `apply(str)` gives it. */
  function ValueText(c: Cell, render: real -> string): string {
    match c
    case Na => "nan"
    case Text(s) => s
    case Num(x) => render(x)
  }

  function Project(r: DmrRow, color: string, render: real -> string): TrackRow {
    TrackRow(r.chrom, r.start, r.end, ValueText(r.qvalue, render), 0, ".", r.start, r.end, color)
  }

  function ProjectAll(rows: seq<DmrRow>, ns: seq<Norm>, render: real -> string): (out: seq<TrackRow>)
    requires |ns| == |rows| && forall i :: 0 <= i < |ns| ==> ns[i].Val?
    ensures |out| == |rows|
    ensures forall i :: 0 <= i < |rows| ==> out[i] == Project(rows[i], InterpolateColor(ns[i].v), render)
  {
    if |rows| == 0 then []
    else [Project(rows[0], InterpolateColor(ns[0].v), render)] + ProjectAll(rows[1..], ns[1..], render)
  }

  /** The track rows of a relabelled table, or the situation in which `create_track` raises on it. */
  function TrackRowsOf(rows: seq<DmrRow>, render: real -> string): (r: Result<seq<TrackRow>, TrackError>)
    ensures r.Success? ==> |r.value| == |rows|
    ensures r.Failure? ==> r.error == NonNumericPValue || r.error == NaNToInteger
    ensures r == Failure(NonNumericPValue) <==> exists i :: 0 <= i < |rows| && rows[i].pvalue.Text?
  {
    if exists i :: 0 <= i < |rows| && rows[i].pvalue.Text? then Failure(NonNumericPValue)
    else
      var ns := Normalized(rows);
      if exists i :: 0 <= i < |ns| && ns[i] == NaN then Failure(NaNToInteger)
      else Success(ProjectAll(rows, ns, render))
  }

  /** The rows of the track: the column count is checked by the relabelling, then the rows are built. */
  function TrackRows(t: ResultsTable, render: real -> string): (r: Result<seq<TrackRow>, TrackError>)
    requires WellFormed(t)
    ensures r.Success? ==> |t.header| == 7 && |r.value| == |t.rows|
  {
    if |t.header| != 7 then Failure(ColumnCountMismatch(|t.header|))
    else TrackRowsOf(Relabel(t.rows), render)
  }

  /** Assigning the seven names fails exactly when the table is not seven columns wide. */
  lemma SevenColumnsRequired(t: ResultsTable, render: real -> string)
    requires WellFormed(t)
    ensures TrackRows(t, render) == Failure(ColumnCountMismatch(|t.header|)) <==> |t.header| != 7
    ensures |t.header| == 7 ==> forall i :: 0 <= i < |t.rows| ==> Relabel(t.rows)[i].pvalue == t.rows[i][4]
  {
  }

  /** The degenerate branch colours every row, so the track rows exist. */
  lemma SucceedsWhenAllEqual(rows: seq<DmrRow>, render: real -> string)
    requires forall i :: 0 <= i < |rows| ==> !rows[i].pvalue.Text?
    requires AllPValuesEqual(rows)
    ensures TrackRowsOf(rows, render).Success?
    ensures forall i :: 0 <= i < |rows| ==> Normalized(rows)[i] == Val(1.0)
  {
    DegenerateExactly(rows);
  }

  /** With every p-value numeric no normalised value is NaN, so the track rows exist. */
  lemma SucceedsWhenAllNumeric(rows: seq<DmrRow>, render: real -> string)
    requires |rows| > 0 && forall i :: 0 <= i < |rows| ==> rows[i].pvalue.Num?
    ensures TrackRowsOf(rows, render).Success?
  {
    var ps := PValues(rows);
    var ns := Normalized(rows);
    assert rows[0].pvalue.x in ps;
    if MinOf(ps) != MaxOf(ps) {
      forall i | 0 <= i < |ns|
        ensures ns[i].Val?
      {
        NormalizedScaled(rows, i);
      }
    }
  }

  /** Outside the degenerate case a row without a p-value is NaN, and `int()` of it raises. */
  lemma FailsOnMissingPValue(rows: seq<DmrRow>, render: real -> string, i: nat)
    requires i < |rows| && rows[i].pvalue == Na && !AllPValuesEqual(rows)
    ensures TrackRowsOf(rows, render).Failure?
  {
    var ps := PValues(rows);
    DegenerateExactly(rows);
    if |ps| > 0 {
      NormalizedScaled(rows, i);
    }
    assert Normalized(rows)[i] == NaN;
  }

  /**
   * The track rows of a table exist exactly when no p-value is text and either every p-value is
   * numeric or all numeric p-values are equal (the degenerate branch, which colours even the
   * rows without a p-value).
   */
  lemma TrackRowsSucceed(rows: seq<DmrRow>, render: real -> string)
    requires |rows| > 0
    ensures TrackRowsOf(rows, render).Success? <==>
      (forall i :: 0 <= i < |rows| ==> !rows[i].pvalue.Text?) &&
      ((forall i :: 0 <= i < |rows| ==> rows[i].pvalue.Num?) || AllPValuesEqual(rows))
  {
    if forall i :: 0 <= i < |rows| ==> !rows[i].pvalue.Text? {
      if AllPValuesEqual(rows) {
        SucceedsWhenAllEqual(rows, render);
      } else if forall i :: 0 <= i < |rows| ==> rows[i].pvalue.Num? {
        SucceedsWhenAllNumeric(rows, render);
      } else {
        var i :| 0 <= i < |rows| && !rows[i].pvalue.Num?;
        FailsOnMissingPValue(rows, render, i);
      }
    }
  }

  /**
   * Each track row is its results row projected: chr, start and end kept, the q-value as text
   * for the name, score 0, strand ".", start and end again, and the colour of its normalised
   * p-value; the rows keep their number and their order.
   */
  lemma TrackRowsLayout(rows: seq<DmrRow>, render: real -> string)
    requires TrackRowsOf(rows, render).Success?
    ensures |TrackRowsOf(rows, render).value| == |rows|
    ensures forall i :: 0 <= i < |rows| ==>
      var r, src := TrackRowsOf(rows, render).value[i], rows[i];
      r.chrom == src.chrom && r.start == src.start && r.end == src.end &&
      r.name == ValueText(src.qvalue, render) && r.score == 0 && r.strand == "." &&
      r.thickStart == src.start && r.thickEnd == src.end &&
      Normalized(rows)[i].Val? && r.itemRgb == InterpolateColor(Normalized(rows)[i].v)
  {
  }

  /** When all numeric p-values are equal, every row, with or without a p-value, is pure blue. */
  lemma DegenerateAllBlue(rows: seq<DmrRow>, render: real -> string)
    requires forall i :: 0 <= i < |rows| ==> !rows[i].pvalue.Text?
    requires AllPValuesEqual(rows)
    ensures TrackRowsOf(rows, render).Success?
    ensures forall i :: 0 <= i < |rows| ==> TrackRowsOf(rows, render).value[i].itemRgb == "0,0,255"
  {
    SucceedsWhenAllEqual(rows, render);
    ColorEndpoints();
  }

  /** Outside the degenerate case a row with a smaller p-value has no less red and no more blue. */
  lemma ColorsFollowPValues(rows: seq<DmrRow>, render: real -> string, i: nat, j: nat)
    requires TrackRowsOf(rows, render).Success? && !AllPValuesEqual(rows)
    requires i < |rows| && j < |rows| && rows[i].pvalue.Num? && rows[j].pvalue.Num?
    requires rows[i].pvalue.x <= rows[j].pvalue.x
    ensures var c, d := TrackRowsOf(rows, render).value[i].itemRgb, TrackRowsOf(rows, render).value[j].itemRgb;
      Channel(c, 0) >= Channel(d, 0) && Channel(c, 2) <= Channel(d, 2) && Channel(c, 1) == 0
  {
    var ps := PValues(rows);
    DegenerateExactly(rows);
    assert rows[i].pvalue.x in ps;
    NormalizedScaled(rows, i);
    NormalizedScaled(rows, j);
    var ni, nj := Normalized(rows)[i].v, Normalized(rows)[j].v;
    ScaleProperties(rows[i].pvalue.x, rows[j].pvalue.x, MinOf(ps), MaxOf(ps));
    ColorMonotone(ni, nj);
    ColorChannels(ni);
    ColorChannels(nj);
    TrackRowsLayout(rows, render);
  }

  /** Outside the degenerate case the row with the smallest p-value is pure red, the largest pure blue. */
  lemma ExtremeRowColors(rows: seq<DmrRow>, render: real -> string, i: nat)
    requires TrackRowsOf(rows, render).Success? && !AllPValuesEqual(rows)
    requires i < |rows| && rows[i].pvalue.Num?
    ensures (forall k :: 0 <= k < |rows| && rows[k].pvalue.Num? ==> rows[i].pvalue.x <= rows[k].pvalue.x) ==>
      TrackRowsOf(rows, render).value[i].itemRgb == "255,0,0"
    ensures (forall k :: 0 <= k < |rows| && rows[k].pvalue.Num? ==> rows[k].pvalue.x <= rows[i].pvalue.x) ==>
      TrackRowsOf(rows, render).value[i].itemRgb == "0,0,255"
  {
    var ps := PValues(rows);
    DegenerateExactly(rows);
    assert rows[i].pvalue.x in ps;
    NormalizedScaled(rows, i);
    TrackRowsLayout(rows, render);
    ColorEndpoints();
    var a :| 0 <= a < |ps| && ps[a] == MinOf(ps);
    var b :| 0 <= b < |ps| && ps[b] == MaxOf(ps);
    var ra := PValueSource(rows, a);
    var rb := PValueSource(rows, b);
  }

  // ---------------------------------------------------------------------------------------
  // The track file

  function HeaderLine(trackName: string): string {
    "track name=\"" + trackName + "\" description=\".\" itemRgb=\"On\""
  }

  /** The nine texts `to_csv` writes for a track row. */
  function Fields(r: TrackRow, render: real -> string): seq<string> {
    [CellText(r.chrom, render), CellText(r.start, render), CellText(r.end, render), r.name,
     IntToString(r.score), r.strand, CellText(r.thickStart, render), CellText(r.thickEnd, render), r.itemRgb]
  }

  function Line(r: TrackRow, render: real -> string): string {
    Join("\t", Fields(r, render))
  }

  /** `to_csv(sep="\t", header=False, index=False)`: each row's line, newline-terminated. */
  function Body(rows: seq<TrackRow>, render: real -> string): string {
    if |rows| == 0 then "" else Line(rows[0], render) + "\n" + Body(rows[1..], render)
  }

  function Lines(rows: seq<TrackRow>, render: real -> string): (lines: seq<string>)
    ensures |lines| == |rows|
    ensures forall i :: 0 <= i < |rows| ==> lines[i] == Line(rows[i], render)
  {
    if |rows| == 0 then [] else [Line(rows[0], render)] + Lines(rows[1..], render)
  }

  /** The header line, a newline, then the table text. */
  function TrackFile(trackName: string, rows: seq<TrackRow>, render: real -> string): string {
    HeaderLine(trackName) + "\n" + Body(rows, render)
  }

  /** The text of the track file built from a results table. */
  function BuildTrack(t: ResultsTable, trackName: string, render: real -> string): (r: Result<string, TrackError>)
    requires WellFormed(t)
    ensures r.Success? <==> TrackRows(t, render).Success?
    ensures r.Failure? ==> r.error == TrackRows(t, render).error
  {
    match TrackRows(t, render)
    case Success(rows) => Success(TrackFile(trackName, rows, render))
    case Failure(e) => Failure(e)
  }

  lemma {:induction false} BodyLines(rows: seq<TrackRow>, render: real -> string)
    requires forall i :: 0 <= i < |rows| ==> '\n' !in Line(rows[i], render)
    ensures Split(Body(rows, render), '\n') == Lines(rows, render) + [""]
  {
    if |rows| > 0 {
      BodyLines(rows[1..], render);
      assert Body(rows, render) == Line(rows[0], render) + ['\n'] + Body(rows[1..], render);
      SplitAtSeparator(Line(rows[0], render), '\n', Body(rows[1..], render));
    }
  }

  /** Neither a tab nor a newline. */
  predicate NoBreak(s: string) {
    '\t' !in s && '\n' !in s
  }

  /** The colour of a track row contains no tab and no newline. */
  lemma ColorNoBreak(n: real)
    ensures NoBreak(InterpolateColor(n))
  {
    IntToStringHasNoSeparator(Red(n), '\t');
    IntToStringHasNoSeparator(Red(n), '\n');
    IntToStringHasNoSeparator(Blue(n), '\t');
    IntToStringHasNoSeparator(Blue(n), '\n');
  }

  /** Split on tabs, a track row's line gives back its nine fields when none holds a tab or newline. */
  lemma LineFields(r: TrackRow, render: real -> string)
    requires NoBreak(CellText(r.chrom, render)) && NoBreak(CellText(r.start, render)) &&
             NoBreak(CellText(r.end, render)) && NoBreak(r.name) && NoBreak(r.strand) &&
             NoBreak(CellText(r.thickStart, render)) && NoBreak(CellText(r.thickEnd, render)) &&
             NoBreak(r.itemRgb)
    ensures '\n' !in Line(r, render)
    ensures Split(Line(r, render), '\t') == Fields(r, render)
  {
    IntToStringHasNoSeparator(r.score, '\t');
    IntToStringHasNoSeparator(r.score, '\n');
    var f := Fields(r, render);
    forall i | 0 <= i < |f|
      ensures NoBreak(f[i])
    {
      assert i == 0 || i == 1 || i == 2 || i == 3 || i == 4 || i == 5 || i == 6 || i == 7 || i == 8;
    }
    JoinAvoids("\t", f, '\n');
    SplitJoin(f, '\t');
  }

  lemma HeaderNoNewline(trackName: string)
    requires '\n' !in trackName
    ensures '\n' !in HeaderLine(trackName)
  {
    var a, b := "track name=\"", "\" description=\".\" itemRgb=\"On\"";
    assert forall k :: 0 <= k < |a| ==> a[k] != '\n';
    assert forall k :: 0 <= k < |b| ==> b[k] != '\n';
    assert HeaderLine(trackName) == a + trackName + b;
  }

  /** Split on newlines, a track file is its header line, one line per row, and a final empty piece. */
  lemma TrackFileLines(trackName: string, out: seq<TrackRow>, render: real -> string)
    requires '\n' !in trackName
    requires forall i :: 0 <= i < |out| ==> '\n' !in Line(out[i], render)
    ensures Split(TrackFile(trackName, out, render), '\n') == [HeaderLine(trackName)] + Lines(out, render) + [""]
  {
    var header, body := HeaderLine(trackName), Body(out, render);
    BodyLines(out, render);
    HeaderNoNewline(trackName);
    assert "\n" == ['\n'];
    assert TrackFile(trackName, out, render) == header + ['\n'] + body;
    SplitAtSeparator(header, '\n', body);
  }

  /**
   * Read back line by line and field by field, the track file is the header line, then one
   * nine-field row per results row in order (chr, start, end, q-value, "0", ".", start, end,
   * colour), then the empty text after the final newline; this holds when the track name has no
   * newline and the written cells hold no tab or newline.
   */
  lemma TrackFileReadsBack(rows: seq<DmrRow>, trackName: string, render: real -> string)
    requires TrackRowsOf(rows, render).Success?
    requires '\n' !in trackName
    requires forall i :: 0 <= i < |rows| ==>
      NoBreak(CellText(rows[i].chrom, render)) && NoBreak(CellText(rows[i].start, render)) &&
      NoBreak(CellText(rows[i].end, render)) && NoBreak(ValueText(rows[i].qvalue, render))
    ensures var lines := Split(TrackFile(trackName, TrackRowsOf(rows, render).value, render), '\n');
      |lines| == |rows| + 2 && lines[0] == HeaderLine(trackName) && lines[|rows| + 1] == "" &&
      forall i :: 0 <= i < |rows| ==>
        Split(lines[i + 1], '\t') ==
          [CellText(rows[i].chrom, render), CellText(rows[i].start, render), CellText(rows[i].end, render),
           ValueText(rows[i].qvalue, render), "0", ".",
           CellText(rows[i].start, render), CellText(rows[i].end, render),
           TrackRowsOf(rows, render).value[i].itemRgb]
  {
    var out := TrackRowsOf(rows, render).value;
    TrackRowsLayout(rows, render);
    assert IntToString(0) == "0";
    forall i | 0 <= i < |out|
      ensures '\n' !in Line(out[i], render)
      ensures Split(Line(out[i], render), '\t') == Fields(out[i], render)
    {
      ColorNoBreak(Normalized(rows)[i].v);
      LineFields(out[i], render);
    }
    TrackFileLines(trackName, out, render);
    var lines := Split(TrackFile(trackName, out, render), '\n');
    assert forall i :: 0 <= i < |rows| ==> lines[i + 1] == Line(out[i], render);
  }

  // ---------------------------------------------------------------------------------------
  // The stage

  function IgvDir(workDir: string, trackName: string): string {
    Resolve(workDir, trackName + "/IGV_tracks")
  }

  /**
   * `create_track`: the listing of the results directory (in iteration order) and the parsed
   * contents of its files give the track file, written to `<track>/IGV_tracks/IGV_track.bed`,
   * and the directory handle mapped to `<remote>/<track>/IGV_tracks`.
   */
  method CreateTrack(listing: seq<string>, files: map<string, ResultsTable>,
                     remoteDir: string, workDir: string, trackName: string, render: real -> string)
    returns (result: Result<TrackOutput, TrackError>)
    requires LastMatch(listing) != "" ==> LastMatch(listing) in files && WellFormed(files[LastMatch(listing)])
    ensures LastMatch(listing) == "" ==> result == Failure(NoResultsFile)
    ensures LastMatch(listing) != "" ==>
      var built := BuildTrack(files[LastMatch(listing)], trackName, render);
      result == if built.Success? then
        Success(TrackOutput(DirRef(IgvDir(workDir, trackName), remoteDir + "/" + trackName + "/IGV_tracks"),
                            IgvDir(workDir, trackName) + "/IGV_track.bed", built.value))
      else Failure(built.error)
  {
    var outputDir := Resolve(workDir, trackName + "/IGV_tracks");
    var filePath := SelectResultsFile(listing);
    if filePath == "" {
      result := Failure(NoResultsFile);
      return;
    }
    var table := files[filePath];
    var rows := TrackRows(table, render);
    if rows.Failure? {
      result := Failure(rows.error);
      return;
    }
    var content := HeaderLine(trackName) + "\n" + Body(rows.value, render);
    result := Success(TrackOutput(DirRef(outputDir, remoteDir + "/" + trackName + "/IGV_tracks"),
                                  outputDir + "/IGV_track.bed", content));
  }
}
