/**
 * The paged snapshot read of the Postgres adapter (packages/adapter-postgres/src/index.ts:440-504, 820-940):
 * keyset pages over one repeatable-read relation, with record and byte limits. The three queries are
 * functions of the relation, in the server's byte order.
 */
module SnapshotReader {
  import opened Wrappers
  import opened Keyset
  import opened JsonGrammar
  import Canonical
  import CanonicalProofs

  type Cursor = Text
  type Byte = u: int | 0 <= u < 0x100

  /**
   * A row of the relation: its cursor, its canonical JSON text as the reader prints it, the sizes the
   * server measures (payload text and raw text columns) and whether its columns pass the type checks.
   */
  datatype Row = Row(cursor: Cursor, text: seq<Byte>, wireBytes: nat, rawBytes: nat, valid: bool)

  datatype Limits = Limits(maxRecords: nat, maxBytes: nat, pageSize: nat, maxRowBytes: nat)

  const MAX_CURSOR_BYTES := 256

  datatype Failure = InvalidCursor | TooManyBytes | TooManyRecords | InvalidRow

  // The document

  const PREFIX: seq<Byte> := [0x7B, 0x22, 0x72, 0x6F, 0x77, 0x73, 0x22, 0x3A, 0x5B]
  const SUFFIX: seq<Byte> := [0x5D, 0x2C, 0x22, 0x76, 0x65, 0x72, 0x73, 0x69, 0x6F, 0x6E, 0x22, 0x3A, 0x31, 0x7D]
  const EMPTY_DOCUMENT_BYTES := 23

  function Join(rows: seq<Row>): seq<Byte>
  {
    if rows == [] then []
    else if |rows| == 1 then rows[0].text
    else Join(rows[..|rows| - 1]) + [0x2C] + rows[|rows| - 1].text
  }

  /** The canonical text of `{ version: 1, rows }`. */
  function Document(rows: seq<Row>): seq<Byte>
  {
    PREFIX + Join(rows) + SUFFIX
  }

  function RowBytes(rows: seq<Row>): nat
  {
    if rows == [] then 0 else RowBytes(rows[..|rows| - 1]) + |rows[|rows| - 1].text|
  }

  /** The running byte count is exact: the empty document, the rows and a comma between each two. */
  lemma {:induction false} DocumentBytes(rows: seq<Row>)
    ensures |Document(rows)| == EMPTY_DOCUMENT_BYTES + RowBytes(rows) + if rows == [] then 0 else |rows| - 1
  {
    if |rows| > 1 {
      DocumentBytes(rows[..|rows| - 1]);
    } else if |rows| == 1 {
      assert rows[..0] == [];
    }
  }

  // The queries

  predicate SortedRelation(relation: seq<Row>)
  {
    forall i, j :: 0 <= i < j < |relation| ==> !Canonical.LexBefore(relation[j].cursor, relation[i].cursor)
  }

  predicate GoodCursor(c: Cursor)
  {
    c != [] && |c| <= MAX_CURSOR_BYTES
  }

  function CursorOf(r: Row): Cursor
  {
    r.cursor
  }

  /** The uniqueness query: some cursor is empty, too long or repeated. */
  predicate HasInvalidCursor(relation: seq<Row>)
  {
    || (exists r :: r in relation && !GoodCursor(r.cursor))
    || (exists i, j :: 0 <= i < j < |relation| && relation[i].cursor == relation[j].cursor)
  }

  lemma ValidCursorsIncrease(relation: seq<Row>)
    requires SortedRelation(relation) && !HasInvalidCursor(relation)
    ensures Increasing(relation, CursorOf)
  {
    forall i, j | 0 <= i < j < |relation| ensures Canonical.LexBefore(relation[i].cursor, relation[j].cursor) {
      CanonicalProofs.LexTotal(relation[i].cursor, relation[j].cursor);
    }
  }

  /** Bytes of the page up to and including row `i`, with one separator each, as the window sum counts them. */
  function Cumulative(page: seq<Row>, i: nat, maxRow: nat): nat
    requires i < |page|
  {
    (if i == 0 then 0 else Cumulative(page, i - 1, maxRow))
      + (if page[i].rawBytes <= maxRow then page[i].wireBytes else maxRow + 1) + 1
  }

  /** The server sends the payload of row `i` of a page only when it fits the transfer budget. */
  predicate Sent(page: seq<Row>, i: nat, budget: nat, maxRow: nat)
    requires i < |page|
  {
    page[i].rawBytes <= maxRow && page[i].wireBytes <= maxRow && Cumulative(page, i, maxRow) <= budget
  }

  function Remaining(limits: Limits, bytes: nat, count: nat): nat
  {
    if limits.maxBytes >= EMPTY_DOCUMENT_BYTES + bytes + count then
      limits.maxBytes - EMPTY_DOCUMENT_BYTES - bytes - count else 0
  }

  function Budget(limits: Limits, bytes: nat, count: nat): nat
  {
    Remaining(limits, bytes, count) + if count == 0 then 1 else 0
  }

  function MaxRow(limits: Limits, budget: nat): nat
  {
    if limits.maxRowBytes < budget then limits.maxRowBytes else budget
  }

  // When a read succeeds

  /** Row `i` passes the transfer of the page that starts at `k`, and the reader's own checks. */
  predicate RowPasses(relation: seq<Row>, limits: Limits, k: nat, i: nat)
    requires k <= i < |relation|
  {
    var budget := Budget(limits, RowBytes(relation[..k]), k);
    && Sent(relation[k..], i - k, budget, MaxRow(limits, budget))
    && relation[i].wireBytes <= limits.maxBytes && relation[i].valid
    && EMPTY_DOCUMENT_BYTES + RowBytes(relation[..i + 1]) + i <= limits.maxBytes
  }

  /** Pages start at the multiples of the page size. */
  function PageStart(size: nat, i: nat): (k: nat)
    requires size > 0
    ensures k <= i < k + size
  {
    if i < size then 0 else PageStart(size, i - size) + size
  }

  lemma {:induction false} PageStartWithin(size: nat, k: nat, i: nat)
    requires size > 0 && PageStart(size, k) == k && k <= i < k + size
    ensures PageStart(size, i) == k
  {
    if k >= size {
      PageStartWithin(size, k - size, i - size);
    }
  }

  predicate Passing(relation: seq<Row>, limits: Limits, i: nat)
    requires limits.pageSize > 0 && i < |relation|
  {
    RowPasses(relation, limits, PageStart(limits.pageSize, i), i)
  }

  predicate AllPass(relation: seq<Row>, limits: Limits)
    requires limits.pageSize > 0
  {
    forall i :: 0 <= i < |relation| ==> Passing(relation, limits, i)
  }

  /** The exact condition for a read to return. */
  predicate Readable(relation: seq<Row>, limits: Limits)
    requires limits.pageSize > 0
  {
    && !HasInvalidCursor(relation) && |relation| <= limits.maxRecords && AllPass(relation, limits)
    && |Document(relation)| <= limits.maxBytes
  }

  // The read

  /** Rows of one page, each with its payload only if the server sent it. */
  datatype WireRow = WireRow(payload: Option<Row>, wireBytes: nat)

  function Transfer(page: seq<Row>, budget: nat, maxRow: nat): seq<WireRow>
  {
    seq(|page|, i requires 0 <= i < |page| =>
      WireRow(if Sent(page, i, budget, maxRow) then Some(page[i]) else None, page[i].wireBytes))
  }

  /**
   * A read returns the entire relation in strictly increasing cursor order, within both limits, or fails;
   * it never truncates. It returns exactly when the relation is readable.
   */
  method ReadSnapshot(relation: seq<Row>, limits: Limits) returns (result: Result<seq<Row>, Failure>)
    requires SortedRelation(relation) && limits.pageSize > 0
    ensures result.Ok? <==> Readable(relation, limits)
    ensures result.Ok? ==> result.value == relation && Increasing(relation, CursorOf) && |relation| <= limits.maxRecords
                           && |Document(result.value)| <= limits.maxBytes
    ensures result.Err? && result.error.TooManyRecords? ==> |relation| > limits.maxRecords
  {
    if HasInvalidCursor(relation) { return Err(InvalidCursor); }
    hide *;
    ValidCursorsIncrease(relation);
    var rows: seq<Row> := [];
    var serialized := 0;
    var cursor: Option<Cursor> := None;
    var more := true;
    NoProgressYet(relation, limits);
    while more && |rows| < limits.maxRecords + 1
      invariant Progress(relation, limits, rows, serialized, cursor) && |rows| <= limits.maxRecords
      invariant more ==> PageStart(limits.pageSize, |rows|) == |rows|
      invariant |rows| <= |relation| && (!more ==> |rows| == |relation|)
      decreases more, |relation| - |rows|
    {
      ghost var k := |rows|;
      var limit := if limits.pageSize < limits.maxRecords + 1 - |rows| then limits.pageSize
        else limits.maxRecords + 1 - |rows|;
      NextPage(relation, limits, rows, serialized, cursor, limit);
      var page := Page(relation, CursorOf, cursor, limit);
      var failure: Option<Failure>;
      failure, rows, serialized, cursor := ReadPage(relation, limits, page, rows, serialized, cursor);
      if failure.Some? {
        Unreadable(relation, limits);
        return Err(failure.value);
      }
      PageStartNext(limits.pageSize, k);
      more := |page| >= limit;
    }
    EverythingPassed(relation, limits, rows, serialized, cursor);
    if |Document(rows)| > limits.maxBytes { return Err(TooManyBytes); }
    return Ok(rows);
  }

  /** The reader holds the first rows of the relation, all of which passed. */
  ghost predicate Progress(relation: seq<Row>, limits: Limits, rows: seq<Row>, serialized: nat, cursor: Option<Cursor>)
    requires limits.pageSize > 0
  {
    && |rows| <= |relation| && rows == relation[..|rows|]
    && serialized == RowBytes(rows)
    && cursor == (if rows == [] then None else Some(rows[|rows| - 1].cursor))
    && forall i :: 0 <= i < |rows| ==> Passing(relation, limits, i)
  }

  lemma NoProgressYet(relation: seq<Row>, limits: Limits)
    requires limits.pageSize > 0
    ensures Progress(relation, limits, [], 0, None) && PageStart(limits.pageSize, 0) == 0
  {
  }

  lemma ProgressFacts(relation: seq<Row>, limits: Limits, rows: seq<Row>, serialized: nat, cursor: Option<Cursor>)
    requires limits.pageSize > 0 && Progress(relation, limits, rows, serialized, cursor)
    ensures |rows| <= |relation| && rows == relation[..|rows|]
    ensures cursor == if rows == [] then None else Some(relation[|rows| - 1].cursor)
    ensures serialized == RowBytes(relation[..|rows|])
  {
  }

  /** The page is the rows of the relation from `k` on. */
  ghost predicate IsSlice(relation: seq<Row>, k: nat, page: seq<Row>)
  {
    k + |page| <= |relation| && page == relation[k..k + |page|]
  }

  /** The relation is too long, or one of its rows does not pass. */
  ghost predicate Fails(relation: seq<Row>, limits: Limits)
    requires limits.pageSize > 0
  {
    |relation| > limits.maxRecords || exists i :: 0 <= i < |relation| && !Passing(relation, limits, i)
  }

  lemma NextPage(relation: seq<Row>, limits: Limits, rows: seq<Row>, serialized: nat, cursor: Option<Cursor>,
                 limit: nat)
    requires limits.pageSize > 0 && Increasing(relation, CursorOf)
             && Progress(relation, limits, rows, serialized, cursor)
    ensures var page := Page(relation, CursorOf, cursor, limit);
            && |rows| + |page| <= |relation| && IsSlice(relation, |rows|, page) && |page| <= limit
            && (|page| < limit ==> |rows| + |page| == |relation|)
  {
    ProgressFacts(relation, limits, rows, serialized, cursor);
    PageIsSlice(relation, CursorOf, |rows|, limit);
    hide Page, Increasing, Progress;
  }

  lemma EverythingPassed(relation: seq<Row>, limits: Limits, rows: seq<Row>, serialized: nat, cursor: Option<Cursor>)
    requires limits.pageSize > 0 && Progress(relation, limits, rows, serialized, cursor) && |rows| == |relation|
    requires !HasInvalidCursor(relation) && |relation| <= limits.maxRecords
    ensures rows == relation
    ensures Readable(relation, limits) <==> |Document(relation)| <= limits.maxBytes
  {
    hide RowPasses, PageStart, Passing, HasInvalidCursor, Document;
  }

  /** A failed page makes the relation unreadable. */
  lemma Unreadable(relation: seq<Row>, limits: Limits)
    requires limits.pageSize > 0 && Fails(relation, limits)
    ensures !Readable(relation, limits)
  {
    hide RowPasses, PageStart, Passing, HasInvalidCursor;
  }

  lemma {:induction false} PageStartNext(size: nat, k: nat)
    requires size > 0 && PageStart(size, k) == k
    ensures PageStart(size, k + size) == k + size
  {
    if k >= size {
      PageStartNext(size, k - size);
    }
  }

  /** The rows of one page are checked one by one. */
  method ReadPage(ghost relation: seq<Row>, limits: Limits, page: seq<Row>, rows0: seq<Row>, serialized0: nat,
                  cursor0: Option<Cursor>)
    returns (failure: Option<Failure>, rows: seq<Row>, serialized: nat, cursor: Option<Cursor>)
    requires limits.pageSize > 0 && !HasInvalidCursor(relation) && Increasing(relation, CursorOf)
    requires Progress(relation, limits, rows0, serialized0, cursor0)
    requires |rows0| + |page| <= |relation| && IsSlice(relation, |rows0|, page)
    requires |page| <= limits.pageSize && |rows0| <= limits.maxRecords && |rows0| + |page| <= limits.maxRecords + 1
    requires PageStart(limits.pageSize, |rows0|) == |rows0|
    ensures failure.Some? ==>
              Fails(relation, limits)
              && (failure.value.TooManyRecords? ==> |relation| > limits.maxRecords)
    ensures failure.None? ==>
              |rows| == |rows0| + |page| <= limits.maxRecords
              && Progress(relation, limits, rows, serialized, cursor)
  {
    hide RowPasses, HasInvalidCursor, Increasing, Progress, PageStart, Budget, Sent, RowBytes, Passing;
    failure, rows, serialized, cursor := None, rows0, serialized0, cursor0;
    ghost var k := |rows0|;
    ProgressFacts(relation, limits, rows, serialized, cursor);
    var budget := Budget(limits, serialized, |rows|);
    var wire := Transfer(page, budget, MaxRow(limits, budget));
    for n := 0 to |page|
      invariant |rows| == k + n <= limits.maxRecords && Progress(relation, limits, rows, serialized, cursor)
    {
      RowChecks(relation, limits, k, serialized0, page, n, rows, serialized, cursor);
      if wire[n].payload.None? || wire[n].wireBytes > limits.maxBytes { failure := Some(TooManyBytes); return; }
      var row := wire[n].payload.value;
      if !row.valid { failure := Some(InvalidRow); return; }
      CursorAdvances(relation, k + n);
      ProgressFacts(relation, limits, rows, serialized, cursor);
      if !GoodCursor(row.cursor) || (cursor.Some? && !Canonical.LexBefore(cursor.value, row.cursor)) {
        failure := Some(InvalidCursor);
        return;
      }
      if EMPTY_DOCUMENT_BYTES + serialized + |row.text| + |rows| > limits.maxBytes {
        failure := Some(TooManyBytes);
        return;
      }
      ProgressStep(relation, limits, rows, serialized, cursor);
      serialized := serialized + |row.text|;
      cursor := Some(row.cursor);
      rows := rows + [row];
      if |rows| > limits.maxRecords { failure := Some(TooManyRecords); return; }
    }
  }

  lemma ProgressStep(relation: seq<Row>, limits: Limits, rows: seq<Row>, serialized: nat, cursor: Option<Cursor>)
    requires limits.pageSize > 0 && Progress(relation, limits, rows, serialized, cursor) && |rows| < |relation|
    requires Passing(relation, limits, |rows|)
    ensures var row := relation[|rows|];
            Progress(relation, limits, rows + [row], serialized + |row.text|, Some(row.cursor))
  {
    hide Passing;
    var row := relation[|rows|];
    assert (rows + [row])[..|rows|] == rows;
  }

  /** What the reader checks of row `n` of a page is what lets the row pass. */
  lemma RowChecks(relation: seq<Row>, limits: Limits, k: nat, serialized0: nat, page: seq<Row>, n: nat,
                  rows: seq<Row>, serialized: nat, cursor: Option<Cursor>)
    requires limits.pageSize > 0 && k + |page| <= |relation| && page == relation[k..k + |page|]
             && n < |page| <= limits.pageSize
    requires Progress(relation, limits, rows, serialized, cursor) && |rows| == k + n
    requires PageStart(limits.pageSize, k) == k && serialized0 == RowBytes(relation[..k])
    ensures var budget := Budget(limits, serialized0, k);
            Passing(relation, limits, k + n) <==>
              && Sent(page, n, budget, MaxRow(limits, budget))
              && page[n].wireBytes <= limits.maxBytes && page[n].valid
              && EMPTY_DOCUMENT_BYTES + serialized + |page[n].text| + |rows| <= limits.maxBytes
  {
    hide Cumulative, RowBytes, Progress, PageStart, Budget, MaxRow;
    ProgressFacts(relation, limits, rows, serialized, cursor);
    PageStartWithin(limits.pageSize, k, k + n);
    RowBytesGrow(relation, k + n);
    CumulativePrefix(relation[k..], page, n, MaxRow(limits, Budget(limits, serialized0, k)));
    assert relation[k..][n] == page[n] == relation[k + n];
  }

  lemma RowBytesGrow(relation: seq<Row>, i: nat)
    requires i < |relation|
    ensures RowBytes(relation[..i + 1]) == RowBytes(relation[..i]) + |relation[i].text|
  {
    assert relation[..i + 1][..i] == relation[..i];
  }

  lemma {:induction false} CumulativePrefix(rest: seq<Row>, page: seq<Row>, n: nat, maxRow: nat)
    requires n < |page| <= |rest| && page == rest[..|page|]
    ensures Cumulative(rest, n, maxRow) == Cumulative(page, n, maxRow)
  {
    if n > 0 {
      CumulativePrefix(rest, page, n - 1, maxRow);
    }
  }

  lemma CursorAdvances(relation: seq<Row>, i: nat)
    requires !HasInvalidCursor(relation) && Increasing(relation, CursorOf) && i < |relation|
    ensures GoodCursor(relation[i].cursor)
    ensures i > 0 ==> Canonical.LexBefore(relation[i - 1].cursor, relation[i].cursor)
  {
    assert relation[i] in relation;
  }

  // How tight the transfer budget is

  /**
   * What the server measures: the raw text columns are part of the payload text, and the payload text spends
   * blanks that canonical JSON does not.
   */
  predicate Measured(relation: seq<Row>)
  {
    forall r :: r in relation ==> r.rawBytes <= r.wireBytes && |r.text| <= r.wireBytes
  }

  function WireBytes(rows: seq<Row>): nat
  {
    if rows == [] then 0 else WireBytes(rows[..|rows| - 1]) + rows[|rows| - 1].wireBytes
  }

  /**
   * The limit row `i` of the page from `k` needs: rows read count canonically, rows of its own page as payload text.
   */
  function Needed(relation: seq<Row>, k: nat, i: nat): nat
    requires k <= i < |relation|
  {
    EMPTY_DOCUMENT_BYTES + RowBytes(relation[..k]) + WireBytes(relation[k..i + 1]) + i + if k > 0 then 1 else 0
  }

  /** The bytes the payload text of some rows spends on top of their canonical text. */
  function Blanks(rows: seq<Row>): int
  {
    WireBytes(rows) - RowBytes(rows)
  }

  lemma {:induction false} RowBytesSplit(relation: seq<Row>, k: nat, i: nat)
    requires k <= i <= |relation|
    ensures RowBytes(relation[..i]) == RowBytes(relation[..k]) + RowBytes(relation[k..i])
  {
    if k < i {
      RowBytesSplit(relation, k, i - 1);
      assert relation[..i][..i - 1] == relation[..i - 1] && relation[k..i][..i - 1 - k] == relation[k..i - 1];
    }
  }

  lemma {:induction false} BlanksAreNatural(rows: seq<Row>)
    requires Measured(rows)
    ensures Blanks(rows) >= 0
  {
    if rows != [] {
      BlanksAreNatural(rows[..|rows| - 1]);
      assert rows[|rows| - 1] in rows;
    }
  }

  lemma {:induction false} CumulativeIsWire(relation: seq<Row>, k: nat, i: nat, maxRow: nat)
    requires k <= i < |relation|
    requires forall j :: k <= j <= i ==> relation[j].rawBytes <= maxRow
    ensures Cumulative(relation[k..], i - k, maxRow) == WireBytes(relation[k..i + 1]) + i - k + 1
    ensures relation[i].wireBytes <= WireBytes(relation[k..i + 1])
  {
    WireBytesNext(relation, k, i);
    hide WireBytes;
    assert relation[k..][i - k] == relation[i];
    if k < i {
      CumulativeIsWire(relation, k, i - 1, maxRow);
    } else {
      NoWireBytes(relation[k..i]);
    }
  }

  lemma WireBytesNext(relation: seq<Row>, k: nat, i: nat)
    requires k <= i < |relation|
    ensures WireBytes(relation[k..i + 1]) == WireBytes(relation[k..i]) + relation[i].wireBytes
  {
    assert relation[k..i + 1][..i - k] == relation[k..i];
  }

  lemma NoWireBytes(rows: seq<Row>)
    requires rows == []
    ensures WireBytes(rows) == 0
  {
  }

  lemma {:induction false} WireBytesGrow(relation: seq<Row>, k: nat, j: nat, i: nat)
    requires k <= j <= i <= |relation|
    ensures WireBytes(relation[k..j]) <= WireBytes(relation[k..i])
  {
    hide WireBytes;
    if j < i {
      WireBytesGrow(relation, k, j, i - 1);
      WireBytesNext(relation, k, i - 1);
    }
  }

  lemma {:induction false} WireAtMost(relation: seq<Row>, k: nat, j: nat, i: nat)
    requires k <= j <= i < |relation|
    ensures relation[j].wireBytes <= WireBytes(relation[k..i + 1])
  {
    assert relation[k..j + 1][..j - k] == relation[k..j];
    WireBytesGrow(relation, k, j + 1, i + 1);
  }

  /** What the limits must allow for row `i` of the page from `k`. */
  predicate Allowed(relation: seq<Row>, limits: Limits, k: nat, i: nat)
    requires k <= i < |relation|
  {
    relation[i].valid && relation[i].wireBytes <= limits.maxRowBytes && Needed(relation, k, i) <= limits.maxBytes
  }

  predicate EveryRowAllowed(relation: seq<Row>, limits: Limits)
    requires limits.pageSize > 0
  {
    forall i :: 0 <= i < |relation| ==> Allowed(relation, limits, PageStart(limits.pageSize, i), i)
  }

  lemma RowFits(relation: seq<Row>, limits: Limits, k: nat, i: nat)
    requires Measured(relation) && k <= i < |relation|
    requires forall j :: k <= j <= i ==> Allowed(relation, limits, k, j)
    ensures RowPasses(relation, limits, k, i)
  {
    hide Cumulative, RowBytes, WireBytes;
    assert Allowed(relation, limits, k, i);
    var budget := Budget(limits, RowBytes(relation[..k]), k);
    forall j | k <= j <= i ensures relation[j].rawBytes <= MaxRow(limits, budget) {
      assert Allowed(relation, limits, k, j) && relation[j] in relation;
      WireAtMost(relation, k, j, i);
    }
    CumulativeIsWire(relation, k, i, MaxRow(limits, budget));
    DocumentNeeded(relation, k, i);
    assert relation[i] in relation;
  }

  lemma RowNeeds(relation: seq<Row>, limits: Limits, k: nat, i: nat)
    requires Measured(relation) && k <= i < |relation|
    requires forall j :: k <= j <= i ==> RowPasses(relation, limits, k, j)
    ensures Allowed(relation, limits, k, i)
  {
    RowBytesOfNone(relation);
    hide Cumulative, RowBytes, WireBytes;
    var budget := Budget(limits, RowBytes(relation[..k]), k);
    forall j | k <= j <= i ensures relation[j].rawBytes <= MaxRow(limits, budget) {
      assert RowPasses(relation, limits, k, j);
    }
    assert RowPasses(relation, limits, k, i);
    CumulativeIsWire(relation, k, i, MaxRow(limits, budget));
  }

  lemma RowBytesOfNone(relation: seq<Row>)
    ensures RowBytes(relation[..0]) == 0
  {
  }

  /**
   * The need in terms of the document so far: its bytes, the blanks of the page so far, and a byte from the second page
   * on.
   */
  lemma DocumentNeeded(relation: seq<Row>, k: nat, i: nat)
    requires k <= i < |relation|
    ensures Needed(relation, k, i) ==
              |Document(relation[..i + 1])| + Blanks(relation[k..i + 1]) + if k > 0 then 1 else 0
    ensures |Document(relation[..i + 1])| == EMPTY_DOCUMENT_BYTES + RowBytes(relation[..i + 1]) + i
    ensures Measured(relation) ==> Blanks(relation[k..i + 1]) >= 0
  {
    hide Document, RowBytes, WireBytes;
    RowBytesSplit(relation, k, i + 1);
    DocumentBytes(relation[..i + 1]);
    if Measured(relation) {
      assert Measured(relation[k..i + 1]) by {
        assert forall r :: r in relation[k..i + 1] ==> r in relation;
      }
      BlanksAreNatural(relation[k..i + 1]);
    }
  }

  /**
   * Exactly which relations are read, for whatever the server measures. That the document fits is not enough:
   * every row needs room for the blanks of its page and, from the second page on, for one byte more.
   */
  lemma ReadableExactly(relation: seq<Row>, limits: Limits)
    requires limits.pageSize > 0 && Measured(relation)
    ensures Readable(relation, limits) <==>
              && !HasInvalidCursor(relation) && |relation| <= limits.maxRecords
              && EMPTY_DOCUMENT_BYTES <= limits.maxBytes
              && EveryRowAllowed(relation, limits)
  {
    hide HasInvalidCursor, RowPasses, Document, RowBytes, WireBytes, Measured, PageStart, Allowed, Needed;
    DocumentBytes(relation);
    if Readable(relation, limits) {
      forall i | 0 <= i < |relation| ensures Allowed(relation, limits, PageStart(limits.pageSize, i), i) {
        PassingIsAllowed(relation, limits, i);
      }
    }
    if EveryRowAllowed(relation, limits) {
      forall i | 0 <= i < |relation| ensures Passing(relation, limits, i) {
        AllowedIsPassing(relation, limits, i);
      }
      if relation != [] {
        AllowedFits(relation, limits, |relation| - 1);
      } else {
        EmptyDocument(relation);
      }
    }
  }

  lemma EmptyDocument(relation: seq<Row>)
    requires relation == []
    ensures |Document(relation)| == EMPTY_DOCUMENT_BYTES
  {
  }

  lemma AllowedFits(relation: seq<Row>, limits: Limits, n: nat)
    requires limits.pageSize > 0 && Measured(relation) && n + 1 == |relation|
    requires Allowed(relation, limits, PageStart(limits.pageSize, n), n)
    ensures |Document(relation)| <= limits.maxBytes
  {
    hide Document, RowBytes, WireBytes, Needed;
    DocumentNeeded(relation, PageStart(limits.pageSize, n), n);
    assert relation[..n + 1] == relation;
  }

  lemma PassingIsAllowed(relation: seq<Row>, limits: Limits, i: nat)
    requires limits.pageSize > 0 && Measured(relation) && AllPass(relation, limits) && i < |relation|
    ensures Allowed(relation, limits, PageStart(limits.pageSize, i), i)
  {
    hide RowPasses, PageStart, Allowed, Measured;
    var k := PageStart(limits.pageSize, i);
    PageStartIsStart(limits.pageSize, i);
    forall j | k <= j <= i ensures RowPasses(relation, limits, k, j) {
      PageStartWithin(limits.pageSize, k, j);
      assert Passing(relation, limits, j);
    }
    RowNeeds(relation, limits, k, i);
  }

  lemma AllowedIsPassing(relation: seq<Row>, limits: Limits, i: nat)
    requires limits.pageSize > 0 && Measured(relation) && i < |relation|
    requires EveryRowAllowed(relation, limits)
    ensures Passing(relation, limits, i)
  {
    hide RowPasses, PageStart, Allowed, Measured;
    var k := PageStart(limits.pageSize, i);
    PageStartIsStart(limits.pageSize, i);
    forall j | k <= j <= i ensures Allowed(relation, limits, k, j) {
      PageStartWithin(limits.pageSize, k, j);
      assert Allowed(relation, limits, PageStart(limits.pageSize, j), j);
    }
    RowFits(relation, limits, k, i);
  }

  /** The row `{"id":"x"}` of a one-column relation: the server prints a blank after the colon. */
  function SmallRow(letter: Byte): (r: Row)
    ensures |r.text| == 10
  {
    Row([letter], [0x7B, 0x22, 0x69, 0x64, 0x22, 0x3A, 0x22, letter, 0x22, 0x7D], 11, 1, true)
  }

  lemma OneRowBytes(r: Row)
    ensures RowBytes([r]) == |r.text| && WireBytes([r]) == r.wireBytes
  {
    assert [r][..0] == [];
  }

  lemma SmallRowsAreSound(relation: seq<Row>)
    requires relation == [SmallRow(0x61)] || relation == [SmallRow(0x61), SmallRow(0x62)]
    ensures Measured(relation) && !HasInvalidCursor(relation)
    ensures Needed(relation, 0, 0) == 34
    ensures |relation| == 2 ==> Needed(relation, 1, 1) == 46 && Blanks(relation[1..]) == 1
    ensures |Document(relation)| == if |relation| == 1 then 33 else 44
  {
    DocumentBytes(relation);
    assert relation[..0] == [] && relation[0..1] == [SmallRow(0x61)] == relation[..1];
    OneRowBytes(SmallRow(0x61));
    OneRowBytes(SmallRow(0x62));
    if |relation| == 2 {
      assert relation[1..2] == [SmallRow(0x62)] == relation[1..];
    }
  }

  /** A document that fits the byte limit exactly and is refused within its first page, for the blank of its row. */
  lemma FittingFirstPageIsRefused()
    ensures var relation := [SmallRow(0x61)];
            && Measured(relation) && !HasInvalidCursor(relation) && |Document(relation)| == 33
            && !Readable(relation, Limits(10, 33, 500, 65536)) && Readable(relation, Limits(10, 34, 500, 65536))
  {
    hide Document, Readable, HasInvalidCursor, Measured, Needed;
    var relation, tight, loose := [SmallRow(0x61)], Limits(10, 33, 500, 65536), Limits(10, 34, 500, 65536);
    SmallRowsAreSound(relation);
    ReadableExactly(relation, tight);
    ReadableExactly(relation, loose);
    assert !Allowed(relation, tight, PageStart(500, 0), 0);
  }

  /** A document that fits with the blanks of its last page to spare, and is refused for one byte at a page boundary. */
  lemma FittingNextPageIsRefused()
    ensures var relation := [SmallRow(0x61), SmallRow(0x62)];
            && Measured(relation) && !HasInvalidCursor(relation)
            && |Document(relation)| == 44 && Blanks(relation[1..]) == 1
            && !Readable(relation, Limits(10, 45, 1, 65536)) && Readable(relation, Limits(10, 46, 1, 65536))
  {
    hide Document, Readable, HasInvalidCursor, Measured, Needed, Blanks;
    var relation, tight, loose := [SmallRow(0x61), SmallRow(0x62)], Limits(10, 45, 1, 65536), Limits(10, 46, 1, 65536);
    SmallRowsAreSound(relation);
    ReadableExactly(relation, tight);
    ReadableExactly(relation, loose);
    assert PageStart(1, 0) == 0 && PageStart(1, 1) == 1;
    assert !Allowed(relation, tight, PageStart(1, 1), 1);
  }

  lemma {:induction false} PageStartIsStart(size: nat, i: nat)
    requires size > 0
    ensures PageStart(size, PageStart(size, i)) == PageStart(size, i)
  {
    if i >= size {
      PageStartIsStart(size, i - size);
    }
  }
}
