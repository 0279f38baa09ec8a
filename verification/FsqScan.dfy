/**
 * One page of a resumable Foursquare scan
 * (packages/food-runtime/scripts/ops/export-fsq-hf-parquet-sample.py, scan_page).
 *
 * The program walks files, row groups and batches; the reference walks files and rows only.
 */
module FsqScan {
  import opened Wrappers
  import opened Sequences

  datatype Row = Row(fields: map<string, string>)

  /** A row group arrives as record batches, a Parquet file as row groups. */
  type Group = seq<seq<Row>>
  type Shard = seq<Group>

  datatype Position = Position(fileIndex: int, rowOffset: int)

  datatype Budget = Budget(maxFiles: int, maxScanRows: int, limit: int)

  datatype Scan = Scan(next: Position, rows: seq<Row>, scannedRows: nat, filesVisited: nat, cycleComplete: bool)

  datatype ScanError = CursorExceedsFile

  function Groups(shard: Shard): seq<seq<Row>>
  {
    seq(|shard|, g requires 0 <= g < |shard| => Flatten(shard[g]))
  }

  /** The rows of one file in storage order. */
  function ShardRows(shard: Shard): seq<Row>
  {
    Flatten(Groups(shard))
  }

  ghost function Contents(shards: seq<Shard>): seq<seq<Row>>
  {
    seq(|shards|, i requires 0 <= i < |shards| => ShardRows(shards[i]))
  }

  predicate ValidBudget(b: Budget)
  {
    1 <= b.maxFiles && 1 <= b.maxScanRows && 1 <= b.limit
  }

  /** How many leading rows fit the scan budget `s` while at most `l` of them match. */
  ghost function Reach(keep: Row -> bool, rows: seq<Row>, s: int, l: int): (n: nat)
    ensures n <= |rows|
    decreases |rows|
  {
    if rows == [] || s <= 0 || l <= 0 then 0
    else 1 + Reach(keep, rows[1..], s - 1, if keep(rows[0]) then l - 1 else l)
  }

  /** A page that first produced `rows` and then went on as `more`. */
  function After(rows: seq<Row>, scanned: nat, visited: nat, more: Scan): Scan
  {
    Scan(more.next, rows + more.rows, scanned + more.scannedRows, visited + more.filesVisited, more.cycleComplete)
  }

  /** The reference scan: read rows of one file after another until a budget is spent. */
  ghost function ScanFrom(files: seq<seq<Row>>, keep: Row -> bool, at: Position, b: Budget): (page: Scan)
    requires InRange(files, at)
    decreases |files| - at.fileIndex
  {
    if b.maxFiles <= 0 || b.maxScanRows <= 0 || b.limit <= 0 then Scan(at, [], 0, 0, false)
    else
      var file := files[at.fileIndex];
      var n := Reach(keep, file[at.rowOffset..], b.maxScanRows, b.limit);
      var found := Filter(keep, file[at.rowOffset..at.rowOffset + n]);
      if at.rowOffset + n < |file| then
        Scan(Position(at.fileIndex, at.rowOffset + n), found, n, 1, false)
      else if at.fileIndex + 1 == |files| then
        Scan(Position(0, 0), found, n, 1, true)
      else
        After(found, n, 1, ScanFrom(files, keep, Position(at.fileIndex + 1, 0),
                                    Budget(b.maxFiles - 1, b.maxScanRows - n, b.limit - |found|)))
  }

  predicate Spent(rows: seq<Row>, scanned: nat, b: Budget)
  {
    |rows| >= b.limit || scanned >= b.maxScanRows
  }

  lemma {:induction false} ReachStep(keep: Row -> bool, file: seq<Row>, at: nat, s: int, l: int)
    requires at < |file| && s > 0 && l > 0
    ensures Reach(keep, file[at..], s, l)
         == 1 + Reach(keep, file[at + 1..], s - 1, if keep(file[at]) then l - 1 else l)
  {
    assert file[at..][1..] == file[at + 1..];
  }

  /** The file being read and the tallies at the moment it was opened. */
  datatype Opened = Opened(file: seq<Row>, from: nat, rows: seq<Row>, scanned: nat)

  /**
   * What the file loop has read so far, as a statement about the reference: `rows` and `scanned`
   * grew by the rows between `o.from` and `to`, and the reference still wants exactly the rest.
   */
  ghost predicate Progress(keep: Row -> bool, b: Budget, o: Opened, to: nat, rows: seq<Row>, scanned: nat)
  {
    && o.from <= to <= |o.file|
    && scanned == o.scanned + (to - o.from)
    && rows == o.rows + Filter(keep, o.file[o.from..to])
    && Reach(keep, o.file[o.from..], b.maxScanRows - o.scanned, b.limit - |o.rows|)
       == (to - o.from) + Reach(keep, o.file[to..], b.maxScanRows - scanned, b.limit - |rows|)
  }

  lemma {:induction false} ProgressStep(keep: Row -> bool, b: Budget, o: Opened, to: nat, rows: seq<Row>, scanned: nat)
    requires Progress(keep, b, o, to, rows, scanned)
    requires to < |o.file| && !Spent(rows, scanned, b)
    ensures Progress(keep, b, o, to + 1, if keep(o.file[to]) then rows + [o.file[to]] else rows, scanned + 1)
  {
    ReachStep(keep, o.file, to, b.maxScanRows - scanned, b.limit - |rows|);
    var grown := o.file[o.from..to + 1];
    assert grown[..|grown| - 1] == o.file[o.from..to];
    assert grown[|grown| - 1] == o.file[to];
  }

  /** `part` sits at offset `at` of `whole`. */
  ghost predicate Within(part: seq<Row>, whole: seq<Row>, at: nat)
  {
    at + |part| <= |whole| && whole[at..at + |part|] == part
  }

  lemma {:induction false} WithinTrans(inner: seq<Row>, middle: seq<Row>, outer: seq<Row>, i: nat, j: nat)
    requires Within(inner, middle, i) && Within(middle, outer, j)
    ensures Within(inner, outer, j + i)
  {
    forall k | 0 <= k < |inner| ensures outer[j + i + k] == inner[k] {
      WithinAt(inner, middle, i, k);
      WithinAt(middle, outer, j, i + k);
    }
  }

  lemma {:induction false} WithinAt(part: seq<Row>, whole: seq<Row>, at: nat, k: nat)
    requires Within(part, whole, at) && k < |part|
    ensures whole[at + k] == part[k]
  {
    assert whole[at..at + |part|][k] == whole[at + k];
  }

  /** The rows of one record batch, from the first one not consumed by an earlier page. */
  method ReadBatch(batch: seq<Row>, batchStart: nat, keep: Row -> bool, b: Budget,
                   rowOffset: nat, rows0: seq<Row>, scanned0: nat, ghost o: Opened)
    returns (offset: nat, rows: seq<Row>, scanned: nat)
    requires batchStart <= rowOffset < batchStart + |batch| && Within(batch, o.file, batchStart)
    requires !Spent(rows0, scanned0, b) && Progress(keep, b, o, rowOffset, rows0, scanned0)
    ensures Progress(keep, b, o, offset, rows, scanned)
    ensures rowOffset < offset <= batchStart + |batch|
    ensures Spent(rows, scanned, b) || offset == batchStart + |batch|
  {
    hide Progress;
    offset, rows, scanned := rowOffset, rows0, scanned0;
    for j := rowOffset - batchStart to |batch|
      invariant rowOffset <= offset == batchStart + j
      invariant !Spent(rows, scanned, b)
      invariant Progress(keep, b, o, offset, rows, scanned)
    {
      var row := batch[j];
      WithinAt(batch, o.file, batchStart, j);
      ProgressStep(keep, b, o, offset, rows, scanned);
      offset := offset + 1;
      scanned := scanned + 1;
      if keep(row) {
        rows := rows + [row];
      }
      if Spent(rows, scanned, b) {
        return;
      }
    }
  }

  /** One decoded row group: skip what earlier pages consumed, then read until a budget is spent. */
  method ReadGroup(group: Group, groupStart: nat, keep: Row -> bool, b: Budget,
                   rowOffset: nat, rows0: seq<Row>, scanned0: nat, ghost o: Opened)
    returns (offset: nat, rows: seq<Row>, scanned: nat)
    requires groupStart <= rowOffset < groupStart + |Flatten(group)|
    requires Within(Flatten(group), o.file, groupStart)
    requires !Spent(rows0, scanned0, b) && Progress(keep, b, o, rowOffset, rows0, scanned0)
    ensures Progress(keep, b, o, offset, rows, scanned)
    ensures offset <= groupStart + |Flatten(group)|
    ensures Spent(rows, scanned, b) || offset == groupStart + |Flatten(group)|
  {
    hide Progress;
    offset, rows, scanned := rowOffset, rows0, scanned0;
    var batchStart := groupStart;
    for i := 0 to |group|
      invariant batchStart == groupStart + |Flatten(group[..i])| <= groupStart + |Flatten(group)|
      invariant !Spent(rows, scanned, b) && Progress(keep, b, o, offset, rows, scanned)
      invariant offset == batchStart || batchStart < offset == rowOffset
      invariant offset <= groupStart + |Flatten(group)|
    {
      var batch := group[i];
      FlattenAt(group, i);
      var batchEnd := batchStart + |batch|;
      var skip := if offset > batchStart then offset - batchStart else 0;
      if skip < |batch| {
        WithinTrans(batch, Flatten(group), o.file, |Flatten(group[..i])|, groupStart);
        offset, rows, scanned := ReadBatch(batch, batchStart, keep, b, offset, rows, scanned, o);
      }
      batchStart := batchEnd;
      if Spent(rows, scanned, b) {
        return;
      }
    }
    assert group[..|group|] == group;
  }

  /** The row count the metadata of a Parquet row group reports. */
  function NumRows(group: Group): nat
  {
    |Flatten(group)|
  }

  /** The row-group loop over one opened file. */
  method ReadFile(shard: Shard, keep: Row -> bool, b: Budget, rowOffset: nat, rows0: seq<Row>, scanned0: nat)
    returns (offset: nat, rows: seq<Row>, scanned: nat)
    requires rowOffset <= |ShardRows(shard)| && !Spent(rows0, scanned0, b)
    ensures Progress(keep, b, Opened(ShardRows(shard), rowOffset, rows0, scanned0), offset, rows, scanned)
    ensures Spent(rows, scanned, b) || offset == |ShardRows(shard)|
  {
    offset, rows, scanned := rowOffset, rows0, scanned0;
    ghost var groups := Groups(shard);
    ghost var o := Opened(ShardRows(shard), rowOffset, rows0, scanned0);
    assert o.file[rowOffset..rowOffset] == [];
    var groupStart := 0;
    for g := 0 to |shard|
      invariant groupStart == |Flatten(groups[..g])| <= |o.file|
      invariant !Spent(rows, scanned, b) && Progress(keep, b, o, offset, rows, scanned)
      invariant offset == groupStart || groupStart < offset == rowOffset
    {
      FlattenAt(groups, g);
      var groupEnd := groupStart + NumRows(shard[g]);
      if groupEnd <= offset {
        groupStart := groupEnd;
        continue;
      }
      offset, rows, scanned := ReadGroup(shard[g], groupStart, keep, b, offset, rows, scanned, o);
      groupStart := groupEnd;
      if Spent(rows, scanned, b) {
        return;
      }
    }
    assert groups[..|groups|] == groups;
  }

  ghost function Left(b: Budget, rows: seq<Row>, scanned: nat, visited: nat): Budget
  {
    Budget(b.maxFiles - visited, b.maxScanRows - scanned, b.limit - |rows|)
  }

  ghost predicate InRange(files: seq<seq<Row>>, at: Position)
  {
    0 <= at.fileIndex < |files| && 0 <= at.rowOffset <= |files[at.fileIndex]|
  }

  /** What the file loop has done so far: the reference scan is `rows` followed by a scan from here. */
  ghost predicate Resumes(whole: Scan, files: seq<seq<Row>>, keep: Row -> bool, b: Budget,
                          at: Position, rows: seq<Row>, scanned: nat, visited: nat)
  {
    && InRange(files, at)
    && whole == After(rows, scanned, visited, ScanFrom(files, keep, at, Left(b, rows, scanned, visited)))
  }

  /** The scan of one file, given how far its loop got. */
  lemma {:induction false} ScanOneFile(files: seq<seq<Row>>, keep: Row -> bool, b: Budget, at: Position, n: nat,
                                       found: seq<Row>)
    requires InRange(files, at) && ValidBudget(b) && at.rowOffset + n <= |files[at.fileIndex]|
    requires Reach(keep, files[at.fileIndex][at.rowOffset..], b.maxScanRows, b.limit) == n
    requires found == Filter(keep, files[at.fileIndex][at.rowOffset..at.rowOffset + n])
    ensures var file := files[at.fileIndex];
            ScanFrom(files, keep, at, b) ==
            if at.rowOffset + n < |file| then
              After(found, n, 1, Scan(Position(at.fileIndex, at.rowOffset + n), [], 0, 0, false))
            else if at.fileIndex + 1 == |files| then
              After(found, n, 1, Scan(Position(0, 0), [], 0, 0, true))
            else
              After(found, n, 1, ScanFrom(files, keep, Position(at.fileIndex + 1, 0), Left(b, found, n, 1)))
  {
    assert found + [] == found;
  }

  lemma {:induction false} AfterAfter(rows0: seq<Row>, scanned0: nat, visited0: nat,
                                      rows: seq<Row>, scanned: nat, visited: nat, more: Scan)
    ensures After(rows0, scanned0, visited0, After(rows, scanned, visited, more))
         == After(rows0 + rows, scanned0 + scanned, visited0 + visited, more)
  {
    assert rows0 + (rows + more.rows) == rows0 + rows + more.rows;
  }

  /** Where the scan stands after a file was closed; `None` when it was the last file of the cycle. */
  function AfterFile(fileCount: nat, fileIndex: nat, offset: nat, total: nat): Option<Position>
  {
    if offset != total then Some(Position(fileIndex, offset))
    else if fileIndex + 1 == fileCount then None
    else Some(Position(fileIndex + 1, 0))
  }

  /** Once the file loop stops, the reference wants nothing more from this file. */
  lemma {:induction false} ProgressDone(keep: Row -> bool, b: Budget, o: Opened, to: nat, rows: seq<Row>, scanned: nat)
    requires Progress(keep, b, o, to, rows, scanned)
    requires Spent(rows, scanned, b) || to == |o.file|
    ensures Reach(keep, o.file[o.from..], b.maxScanRows - o.scanned, b.limit - |o.rows|) == to - o.from
    ensures rows == o.rows + Filter(keep, o.file[o.from..to]) && scanned == o.scanned + (to - o.from)
  {
  }

  lemma {:induction false} ResumesDone(whole: Scan, files: seq<seq<Row>>, keep: Row -> bool, b: Budget,
                                       at: Position, rows: seq<Row>, scanned: nat, visited: nat)
    requires Resumes(whole, files, keep, b, at, rows, scanned, visited)
    requires visited >= b.maxFiles || Spent(rows, scanned, b)
    ensures whole == Scan(at, rows, scanned, visited, false)
  {
    assert rows + [] == rows;
  }

  /** A spent budget makes the reference scan stop where it is. */
  lemma {:induction false} SpentStops(files: seq<seq<Row>>, keep: Row -> bool, b: Budget, at: Position)
    requires InRange(files, at) && !ValidBudget(b)
    ensures ScanFrom(files, keep, at, b) == Scan(at, [], 0, 0, false)
  {
  }

  lemma {:induction false} ResumeByRead(whole: Scan, files: seq<seq<Row>>, keep: Row -> bool, b: Budget, at: Position,
                        rows0: seq<Row>, scanned0: nat, visited: nat, n: nat, found: seq<Row>, rest: Scan)
    requires InRange(files, at) && visited < b.maxFiles && !Spent(rows0, scanned0, b)
    requires whole == After(rows0, scanned0, visited, ScanFrom(files, keep, at, Left(b, rows0, scanned0, visited)))
    requires ScanFrom(files, keep, at, Left(b, rows0, scanned0, visited)) == After(found, n, 1, rest)
    ensures whole == After(rows0 + found, scanned0 + n, visited + 1, rest)
  {
    AfterAfter(rows0, scanned0, visited, found, n, 1, rest);
  }

  /** Closing a file advances the scan, except that the last file of the cycle ends it. */
  lemma {:induction false} ResumeAfterFile(whole: Scan, files: seq<seq<Row>>, keep: Row -> bool, b: Budget,
                                           at: Position,
                        rows0: seq<Row>, scanned0: nat, visited: nat, to: nat, rows: seq<Row>, scanned: nat)
    requires Resumes(whole, files, keep, b, at, rows0, scanned0, visited)
    requires visited < b.maxFiles && !Spent(rows0, scanned0, b)
    requires Progress(keep, b, Opened(files[at.fileIndex], at.rowOffset, rows0, scanned0), to, rows, scanned)
    requires Spent(rows, scanned, b) || to == |files[at.fileIndex]|
    ensures match AfterFile(|files|, at.fileIndex, to, |files[at.fileIndex]|)
            case Some(p) => Resumes(whole, files, keep, b, p, rows, scanned, visited + 1)
            case None => whole == Scan(Position(0, 0), rows, scanned, visited + 1, true)
  {
    hide ScanFrom, Reach, Filter;
    var o := Opened(files[at.fileIndex], at.rowOffset, rows0, scanned0);
    ProgressDone(keep, b, o, to, rows, scanned);
    var n, found := to - at.rowOffset, Filter(keep, o.file[o.from..to]);
    ScanOneFile(files, keep, Left(b, rows0, scanned0, visited), at, n, found);
    var left := Left(b, rows, scanned, visited + 1);
    if to < |o.file| {
      SpentStops(files, keep, left, Position(at.fileIndex, to));
      ResumeByRead(whole, files, keep, b, at, rows0, scanned0, visited, n, found,
                   Scan(Position(at.fileIndex, to), [], 0, 0, false));
    } else if at.fileIndex + 1 == |files| {
      ResumeByRead(whole, files, keep, b, at, rows0, scanned0, visited, n, found, Scan(Position(0, 0), [], 0, 0, true));
      assert rows + [] == rows;
    } else {
      ResumeByRead(whole, files, keep, b, at, rows0, scanned0, visited, n, found,
                   ScanFrom(files, keep, Position(at.fileIndex + 1, 0), left));
    }
  }

  /** The whole page: fails exactly when the cursor points past its file, and is otherwise the reference scan. */
  method ScanPage(shards: seq<Shard>, keep: Row -> bool, b: Budget, start: Position)
    returns (r: Result<Scan, ScanError>)
    requires 0 <= start.fileIndex < |shards| && 0 <= start.rowOffset && ValidBudget(b)
    ensures r.Err? <==> start.rowOffset > |Contents(shards)[start.fileIndex]|
    ensures r.Ok? ==> r.value == ScanFrom(Contents(shards), keep, start, b)
  {
    hide ScanFrom, Progress;
    ghost var files := Contents(shards);
    var rows, scanned: nat, visited: nat := [], 0, 0;
    var fileIndex, rowOffset: nat := start.fileIndex, start.rowOffset;
    ghost var whole;
    if InRange(files, start) {
      whole := ScanFrom(files, keep, start, b);
      assert [] + whole.rows == whole.rows;
    }
    while visited < b.maxFiles && scanned < b.maxScanRows && |rows| < b.limit
      invariant 0 <= fileIndex < |shards|
      invariant !InRange(files, start) ==>
                  visited == 0 && scanned == 0 && rows == [] && Position(fileIndex, rowOffset) == start
      invariant InRange(files, start) ==>
                  Resumes(whole, files, keep, b, Position(fileIndex, rowOffset), rows, scanned, visited)
      decreases b.maxFiles - visited
    {
      var shard := shards[fileIndex];
      var total := |ShardRows(shard)|;
      if rowOffset > total {
        return Err(CursorExceedsFile);
      }
      ghost var at, rows0, scanned0 := Position(fileIndex, rowOffset), rows, scanned;
      rowOffset, rows, scanned := ReadFile(shard, keep, b, rowOffset, rows, scanned);
      ResumeAfterFile(whole, files, keep, b, at, rows0, scanned0, visited, rowOffset, rows, scanned);
      visited := visited + 1;
      if rowOffset == total {
        fileIndex := fileIndex + 1;
        rowOffset := 0;
        if fileIndex == |shards| {
          return Ok(Scan(Position(0, 0), rows, scanned, visited, true));
        }
      }
    }
    ResumesDone(whole, files, keep, b, Position(fileIndex, rowOffset), rows, scanned, visited);
    return Ok(Scan(Position(fileIndex, rowOffset), rows, scanned, visited, false));
  }
}
