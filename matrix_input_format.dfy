/** How a matrix stored in an HBase table is cut into input splits
    (`org.apache.hama.mapred.MatrixInputFormatBase.getSplits`): the regions,
    known by their start keys, are grouped into contiguous runs of nearly
    equal length, the longer runs first. */
module MatrixInputFormat {
  import opened Wrappers
  import opened DataIO

  type Row = seq<Byte>

  /** The HBase table handle as far as splitting sees it: its name and the
      start keys of its regions, in key order. */
  datatype HTable = HTable(name: seq<Byte>, startKeys: seq<Row>)

  /** One input split: the table, the first row, and the row it stops before
      (the empty row: to the end of the table). */
  datatype TableSplit = TableSplit(tableName: seq<Byte>, startRow: Row, endRow: Row)

  datatype SplitError =
    | NoRegion            // "Expecting at least one region"
    | NoColumn            // "Expecting at least one column"
    | NegativeArraySize   // a negative split count sizes the result array
    | DivisionByZero      // a zero split count divides the region count

  /** `HConstants.EMPTY_START_ROW`. */
  const EMPTY_ROW: Row := []

  /** The number of splits: the requested number, capped at the number of
      regions. */
  function SplitCount(numSplits: int, regions: nat): int
  {
    if numSplits > regions then regions else numSplits
  }

  /** The number of regions in split i when n regions are cut into k
      splits: n / k, and one more for each of the first n % k splits. */
  function SplitSize(i: nat, n: nat, k: nat): nat
    requires k >= 1
  {
    n / k + (if i < n % k then 1 else 0)
  }

  /** The index of the first region of split i: the splits before it laid
      end to end. */
  function SplitStart(i: nat, n: nat, k: nat): nat
    requires k >= 1
  {
    if i == 0 then 0 else SplitStart(i - 1, n, k) + SplitSize(i - 1, n, k)
  }

  /** Closed form of the start of split i: i full shares of n / k regions,
      plus one extra region for each earlier split among the first n % k. */
  lemma {:induction false} SplitStartClosedForm(i: nat, n: nat, k: nat)
    requires k >= 1
    ensures SplitStart(i, n, k) == i * (n / k) + (if i < n % k then i else n % k)
  {
    if i > 0 {
      SplitStartClosedForm(i - 1, n, k);
      assert i * (n / k) == (i - 1) * (n / k) + n / k;
    }
  }

  /** The splits cover the regions exactly: the first starts at region 0 and
      the last ends after region n - 1. */
  lemma SplitsCover(n: nat, k: nat)
    requires k >= 1
    ensures SplitStart(0, n, k) == 0
    ensures SplitStart(k, n, k) == n
  {
    SplitStartClosedForm(k, n, k);
  }

  /** With no more splits than regions every split is non-empty, the
      earlier splits are never smaller than the later ones, and no two
      sizes differ by more than one. */
  lemma SplitSizesBalanced(i: nat, j: nat, n: nat, k: nat)
    requires 1 <= k <= n
    requires i <= j < k
    ensures SplitSize(j, n, k) >= 1
    ensures SplitSize(j, n, k) <= SplitSize(i, n, k) <= SplitSize(j, n, k) + 1
  {
  }

  /** Every split starts at a region that exists, and so does the region a
      non-final split ends before. */
  lemma {:induction false} SplitStartInBounds(i: nat, n: nat, k: nat)
    requires 1 <= k <= n
    requires i < k
    ensures SplitStart(i, n, k) < SplitStart(i + 1, n, k) <= n
    ensures i + 1 < k ==> SplitStart(i + 1, n, k) < n
    decreases k - i
  {
    SplitSizesBalanced(i, i, n, k);
    if i + 1 < k {
      SplitStartInBounds(i + 1, n, k);
    } else {
      SplitsCover(n, k);
    }
  }

  /** The split i of k over the given table, as the reference definition. */
  function ExpectedSplit(t: HTable, i: nat, k: nat): TableSplit
    requires 1 <= k <= |t.startKeys|
    requires i < k
  {
    SplitStartInBounds(i, |t.startKeys|, k);
    TableSplit(t.name, t.startKeys[SplitStart(i, |t.startKeys|, k)],
               if i + 1 < k then t.startKeys[SplitStart(i + 1, |t.startKeys|, k)] else EMPTY_ROW)
  }

  class MatrixInputFormatBase {
    var inputColumns: Option<seq<seq<Byte>>>
    var table: Option<HTable>

    constructor ()
      ensures inputColumns == None && table == None
    {
      inputColumns := None;
      table := None;
    }

    method SetInputColumns(inputColumns: Option<seq<seq<Byte>>>)
      modifies this`inputColumns
      ensures this.inputColumns == inputColumns
    {
      this.inputColumns := inputColumns;
    }

    method SetHTable(table: Option<HTable>)
      modifies this`table
      ensures this.table == table
    {
      this.table := table;
    }

    /** `getSplits`. The start keys are fetched first, and the
        null dereference of a missing table is swallowed, so a missing
        table is reported as a table without regions; the later "No table
        was provided" check can never fire. */
    method GetSplits(numSplits: Int32) returns (r: Result<array<TableSplit>, SplitError>)
      ensures table.None? || |table.value.startKeys| == 0 ==> r == Err(NoRegion)
      ensures table.Some? && |table.value.startKeys| > 0 ==>
        if inputColumns.None? || |inputColumns.value| == 0 then r == Err(NoColumn)
        else if numSplits < 0 then r == Err(NegativeArraySize)
        else if numSplits == 0 then r == Err(DivisionByZero)
        else r.Ok?
      ensures r.Ok? ==>
        && table.Some?
        && r.value.Length == SplitCount(numSplits, |table.value.startKeys|)
        && forall i :: 0 <= i < r.value.Length ==> r.value[i] == ExpectedSplit(table.value, i, r.value.Length)
    {
      var startKeys: Option<seq<Row>> := None;
      if table.Some? {
        startKeys := Some(table.value.startKeys);
      }
      if startKeys.None? || |startKeys.value| == 0 {
        return Err(NoRegion);
      }
      if table.None? {
        assert false;
      }
      if inputColumns.None? || |inputColumns.value| == 0 {
        return Err(NoColumn);
      }
      var keys := startKeys.value;
      var realNumSplits := if numSplits > |keys| then |keys| else numSplits;
      if realNumSplits < 0 {
        return Err(NegativeArraySize);
      }
      var splits := new TableSplit[realNumSplits];
      if realNumSplits == 0 {
        return Err(DivisionByZero);
      }
      var middle := |keys| / realNumSplits;
      var startPos := 0;
      for i := 0 to realNumSplits
        invariant startPos == SplitStart(i, |keys|, realNumSplits)
        invariant forall j :: 0 <= j < i ==> splits[j] == ExpectedSplit(table.value, j, realNumSplits)
      {
        SplitStartInBounds(i, |keys|, realNumSplits);
        var lastPos := startPos + middle;
        lastPos := if |keys| % realNumSplits > i then lastPos + 1 else lastPos;
        splits[i] := TableSplit(table.value.name, keys[startPos],
                                if i + 1 < realNumSplits then keys[lastPos] else EMPTY_ROW);
        startPos := lastPos;
      }
      r := Ok(splits);
    }
  }
}
