/**
 * What a page of the Foursquare scan promises, over the flat sequence of all rows of the pinned
 * files (packages/food-runtime/scripts/ops/export-fsq-hf-parquet-sample.py, scan_page).
 */
module FsqPages {
  import opened Wrappers
  import opened Sequences
  import opened FsqScan

  /** The index of a cursor position in the flat sequence of all rows. */
  ghost function Flat(files: seq<seq<Row>>, at: Position): nat
    requires InRange(files, at)
  {
    |Flatten(files[..at.fileIndex])| + at.rowOffset
  }

  /** Where a page ends: the cursor wraps to the start when the cycle completes. */
  ghost function End(files: seq<seq<Row>>, page: Scan): nat
    requires InRange(files, page.next)
  {
    if page.cycleComplete then |Flatten(files)| else Flat(files, page.next)
  }

  /** Files and rows a cycle still has in front of it. */
  ghost function Work(files: seq<seq<Row>>, at: Position): int
    requires InRange(files, at)
  {
    (|files| - at.fileIndex) + (|Flatten(files)| - Flat(files, at))
  }

  lemma {:induction false} FlatWithin(files: seq<seq<Row>>, at: Position)
    requires InRange(files, at)
    ensures Flat(files, at) <= |Flatten(files)| && Work(files, at) >= 1
  {
    FlattenAt(files, at.fileIndex);
  }

  /** A slice of one file is a slice of the whole. */
  lemma {:induction false} FileSlice(files: seq<seq<Row>>, at: Position, n: nat)
    requires InRange(files, at) && at.rowOffset + n <= |files[at.fileIndex]|
    ensures Flat(files, at) + n <= |Flatten(files)|
    ensures files[at.fileIndex][at.rowOffset..at.rowOffset + n]
         == Flatten(files)[Flat(files, at)..Flat(files, at) + n]
  {
    FlattenAt(files, at.fileIndex);
    hide Flatten;
    SliceOfSlice(Flatten(files), |Flatten(files[..at.fileIndex])|, |files[at.fileIndex]|, at.rowOffset, n);
  }

  lemma SliceOfSlice(whole: seq<Row>, base: nat, length: nat, offset: nat, n: nat)
    requires base + length <= |whole| && offset + n <= length
    ensures whole[base..base + length][offset..offset + n] == whole[base + offset..base + offset + n]
  {
    var slice := whole[base..base + length][offset..offset + n];
    assert forall k :: 0 <= k < n ==> slice[k] == whole[base + offset + k];
  }

  /** The end of a file and the start of the next are the same place. */
  lemma {:induction false} FileBoundary(files: seq<seq<Row>>, i: nat)
    requires i < |files|
    ensures |Flatten(files[..i])| + |files[i]| == |Flatten(files[..i + 1])|
    ensures i + 1 == |files| ==> |Flatten(files[..i])| + |files[i]| == |Flatten(files)|
  {
    FlattenAt(files, i);
    if i + 1 == |files| {
      assert files[..i + 1] == files;
    }
  }

  lemma {:induction false} FilterSlices(keep: Row -> bool, all: seq<Row>, a: nat, b: nat, c: nat)
    requires a <= b <= c <= |all|
    ensures Filter(keep, all[a..b]) + Filter(keep, all[b..c]) == Filter(keep, all[a..c])
  {
    FilterAppend(keep, all[a..b], all[b..c]);
    assert all[a..b] + all[b..c] == all[a..c];
  }

  /** A page is exactly the matching rows between its start and its end, in order and each once. */
  lemma {:induction false} PageIsSlice(files: seq<seq<Row>>, keep: Row -> bool, at: Position, b: Budget)
    requires InRange(files, at)
    ensures var page := ScanFrom(files, keep, at, b);
            && InRange(files, page.next)
            && Flat(files, at) <= End(files, page) <= |Flatten(files)|
            && page.rows == Filter(keep, Flatten(files)[Flat(files, at)..End(files, page)])
            && page.scannedRows == End(files, page) - Flat(files, at)
    decreases |files| - at.fileIndex
  {
    hide ScanFrom, Reach, Flatten;
    var all := Flatten(files);
    FlatWithin(files, at);
    if ValidBudget(b) {
      hide Filter;
      var n := Reach(keep, files[at.fileIndex][at.rowOffset..], b.maxScanRows, b.limit);
      var found := Filter(keep, files[at.fileIndex][at.rowOffset..at.rowOffset + n]);
      FileSlice(files, at, n);
      FileBoundary(files, at.fileIndex);
      ScanOneFile(files, keep, b, at, n, found);
      if at.rowOffset + n == |files[at.fileIndex]| && at.fileIndex + 1 < |files| {
        var next := Position(at.fileIndex + 1, 0);
        PageIsSlice(files, keep, next, Left(b, found, n, 1));
        var rest := ScanFrom(files, keep, next, Left(b, found, n, 1));
        FilterSlices(keep, all, Flat(files, at), Flat(files, next), End(files, rest));
      }
    } else {
      SpentStops(files, keep, b, at);
      assert all[Flat(files, at)..Flat(files, at)] == [];
    }
  }

  lemma {:induction false} ReachWithinBudget(keep: Row -> bool, rows: seq<Row>, s: int, l: int)
    requires s >= 0 && l >= 0
    ensures var n := Reach(keep, rows, s, l);
            && n <= s && |Filter(keep, rows[..n])| <= l
            && (n == |rows| || n == s || |Filter(keep, rows[..n])| == l)
    decreases |rows|
  {
    var n := Reach(keep, rows, s, l);
    if n == 0 {
      assert rows[..0] == [];
    } else {
      var l' := if keep(rows[0]) then l - 1 else l;
      ReachWithinBudget(keep, rows[1..], s - 1, l');
      assert rows[..n] == rows[..1] + rows[1..][..n - 1];
      FilterAppend(keep, rows[..1], rows[1..][..n - 1]);
      assert rows[..1][..0] == [];
    }
  }

  /** All three budgets are respected, and a page that does not end the cycle has used one of them up. */
  lemma {:induction false} PageWithinBudget(files: seq<seq<Row>>, keep: Row -> bool, at: Position, b: Budget)
    requires InRange(files, at) && b.maxFiles >= 0 && b.maxScanRows >= 0 && b.limit >= 0
    ensures var page := ScanFrom(files, keep, at, b);
            && page.filesVisited <= b.maxFiles && page.scannedRows <= b.maxScanRows && |page.rows| <= b.limit
            && (page.cycleComplete || page.filesVisited == b.maxFiles
                || page.scannedRows == b.maxScanRows || |page.rows| == b.limit)
    decreases |files| - at.fileIndex
  {
    hide ScanFrom, Reach;
    if ValidBudget(b) {
      var tail := files[at.fileIndex][at.rowOffset..];
      var n := Reach(keep, tail, b.maxScanRows, b.limit);
      var found := Filter(keep, files[at.fileIndex][at.rowOffset..at.rowOffset + n]);
      ReachWithinBudget(keep, tail, b.maxScanRows, b.limit);
      assert tail[..n] == files[at.fileIndex][at.rowOffset..at.rowOffset + n];
      ScanOneFile(files, keep, b, at, n, found);
      if at.rowOffset + n == |files[at.fileIndex]| && at.fileIndex + 1 < |files| {
        PageWithinBudget(files, keep, Position(at.fileIndex + 1, 0), Left(b, found, n, 1));
      }
    } else {
      SpentStops(files, keep, b, at);
    }
  }

  /** Every page makes progress: it ends the cycle at the start position, or leaves strictly less work. */
  lemma {:induction false} PageMakesProgress(files: seq<seq<Row>>, keep: Row -> bool, at: Position, b: Budget)
    requires InRange(files, at) && ValidBudget(b)
    ensures var page := ScanFrom(files, keep, at, b);
            && InRange(files, page.next)
            && (page.cycleComplete ==> page.next == Position(0, 0))
            && (!page.cycleComplete ==> Work(files, page.next) < Work(files, at))
    decreases |files| - at.fileIndex
  {
    hide ScanFrom;
    var n := Reach(keep, files[at.fileIndex][at.rowOffset..], b.maxScanRows, b.limit);
    var found := Filter(keep, files[at.fileIndex][at.rowOffset..at.rowOffset + n]);
    ScanOneFile(files, keep, b, at, n, found);
    FileBoundary(files, at.fileIndex);
    if at.rowOffset + n == |files[at.fileIndex]| && at.fileIndex + 1 < |files| {
      var left := Left(b, found, n, 1);
      var next := Position(at.fileIndex + 1, 0);
      if ValidBudget(left) {
        PageMakesProgress(files, keep, next, left);
      } else {
        SpentStops(files, keep, left, next);
      }
    }
  }
}
