/**
 * The crash-safe cursor protocol of the Foursquare exporter
 * (packages/food-runtime/scripts/ops/export-fsq-hf-parquet-sample.py: load_cursor,
 * acknowledge_page, export_page).
 */
module FsqCursor {
  import opened Wrappers
  import opened Sequences
  import opened FsqScan

  datatype ScopeId = ScopeId(dataset: string, config: string, split: string, entity: string,
                             query: string, country: string, region: string)

  datatype FileItem = FileItem(url: string, filename: string, size: int)

  /** SHA-256 over canonical JSON, taken as injective; `Text` is any string that is no such digest. */
  datatype Digest = OfFiles(files: seq<FileItem>) | OfPage(page: PageBody) | Text(text: string)

  /** A page without its identity; `deferred` marks the empty page of a completed region that waits. */
  datatype PageBody = PageBody(start: Position, scan: Scan, deferred: bool, filesDigest: Digest, scope: ScopeId)

  datatype Pending = Pending(body: PageBody, pageId: Digest)

  datatype CursorState = CursorState(version: int, scope: ScopeId, files: seq<FileItem>, filesDigest: Digest,
                                     position: Position, complete: bool, completedAt: real, pending: Option<Pending>)

  datatype Args = Args(scope: ScopeId, budget: Budget, refreshHours: real, cursor: bool, preview: bool)

  datatype CursorError = IdentityMismatch | InvalidPosition | InvalidPendingPage
                       | AcknowledgementMismatch | ProviderUnavailable | ScanFailed

  /** The immutable pinned shards and the row filter of each scope. */
  datatype World = World(contents: FileItem -> seq<Row>, matches: ScopeId -> Row -> bool)
  {
    ghost function Files(items: seq<FileItem>): (r: seq<seq<Row>>)
      ensures |r| == |items|
    {
      seq(|items|, i requires 0 <= i < |items| => contents(items[i]))
    }
  }

  function LoadCursor(disk: Option<CursorState>, scope: ScopeId): Result<Option<CursorState>, CursorError>
  {
    match disk
    case None => Ok(None)
    case Some(s) =>
      if s.version != 1 || s.scope != scope || OfFiles(s.files) != s.filesDigest then Err(IdentityMismatch)
      else if s.position.fileIndex < 0 || s.position.rowOffset < 0 || s.position.fileIndex >= |s.files| then
        Err(InvalidPosition)
      else if s.pending.Some? && (s.pending.value.body.start != s.position
                                  || s.pending.value.pageId != OfPage(s.pending.value.body)) then
        Err(InvalidPendingPage)
      else Ok(disk)
  }

  function Acknowledged(s: CursorState, now: real): CursorState
    requires s.pending.Some?
  {
    var page := s.pending.value.body.scan;
    s.(completedAt := if page.cycleComplete && !s.complete then now else s.completedAt,
       position := page.next, complete := page.cycleComplete, pending := None)
  }

  /** acknowledge_page: the cursor file afterwards, and the error if there is one. */
  function Acknowledge(disk: Option<CursorState>, scope: ScopeId, id: Digest, now: real)
    : (Option<CursorState>, Option<CursorError>)
  {
    match LoadCursor(disk, scope)
    case Err(e) => (disk, Some(e))
    case Ok(state) =>
      if state.None? || state.value.pending.None? || state.value.pending.value.pageId != id then
        (disk, Some(AcknowledgementMismatch))
      else (Some(Acknowledged(state.value, now)), None)
  }

  predicate Waiting(state: Option<CursorState>, args: Args, now: real)
  {
    state.Some? && state.value.complete && now - state.value.completedAt < args.refreshHours * 3600.0
  }

  /** A new cycle starts without a cursor, or when a completed one has nothing pending and has aged. */
  predicate StartsCycle(state: Option<CursorState>, args: Args, now: real)
  {
    state.None? || (state.value.complete && state.value.pending.None? && !Waiting(state, args, now))
  }

  function FreshState(scope: ScopeId, files: seq<FileItem>): CursorState
  {
    CursorState(1, scope, files, OfFiles(files), Position(0, 0), false, 0.0, None)
  }

  function DeferredScan(at: Position): Scan
  {
    Scan(at, [], 0, 0, true)
  }

  ghost function NextScan(w: World, s: CursorState, args: Args, waiting: bool): Result<Scan, CursorError>
    requires 0 <= s.position.fileIndex < |s.files| && 0 <= s.position.rowOffset
  {
    if waiting then Ok(DeferredScan(s.position))
    else if s.position.rowOffset > |w.Files(s.files)[s.position.fileIndex]| then Err(ScanFailed)
    else Ok(ScanFrom(w.Files(s.files), w.matches(s.scope), s.position, args.budget))
  }

  function MakePending(s: CursorState, scan: Scan, waiting: bool): Pending
  {
    var body := PageBody(s.position, scan, waiting, s.filesDigest, s.scope);
    Pending(body, OfPage(body))
  }

  /** export_page: the cursor file afterwards and the page handed to the caller. */
  ghost function Export(w: World, disk: Option<CursorState>, args: Args, now: real, provider: Option<seq<FileItem>>)
    : (Option<CursorState>, Result<Pending, CursorError>)
  {
    var loaded := if args.cursor then LoadCursor(disk, args.scope) else Ok(None);
    if loaded.Err? then (disk, Err(loaded.error))
    else
      var waiting := Waiting(loaded.value, args, now);
      var restart := StartsCycle(loaded.value, args, now);
      if restart && (provider.None? || provider.value == []) then (disk, Err(ProviderUnavailable))
      else
        var s := if restart then FreshState(args.scope, provider.value) else loaded.value.value;
        if s.pending.Some? then (disk, Ok(s.pending.value))
        else
          var scan := NextScan(w, s, args, waiting);
          if scan.Err? then (disk, Err(scan.error))
          else
            var pending := MakePending(s, scan.value, waiting);
            var written := if args.cursor && !args.preview then Some(s.(pending := Some(pending))) else disk;
            (written, Ok(pending))
  }

  /** The cursor file; every method is one invocation of the exporter under its process lock. */
  class CursorFile {
    var disk: Option<CursorState>

    constructor ()
      ensures disk == None
    {
      disk := None;
    }

    method AcknowledgePage(scope: ScopeId, id: Digest, now: real) returns (error: Option<CursorError>)
      modifies this
      ensures (disk, error) == Acknowledge(old(disk), scope, id, now)
    {
      var loaded := LoadCursor(disk, scope);
      if loaded.Err? {
        return Some(loaded.error);
      }
      var state := loaded.value;
      if state.None? || state.value.pending.None? || state.value.pending.value.pageId != id {
        return Some(AcknowledgementMismatch);
      }
      var s := state.value;
      var page := s.pending.value.body.scan;
      if page.cycleComplete && !s.complete {
        s := s.(completedAt := now);
      }
      s := s.(position := page.next, complete := page.cycleComplete, pending := None);
      disk := Some(s);
      return None;
    }

    /** `open` decodes a pinned shard into whatever row groups and batches the reader yields. */
    method ExportPage(w: World, open: FileItem -> Shard, args: Args, now: real,
                      provider: Option<seq<FileItem>>)
      returns (r: Result<Pending, CursorError>)
      requires ValidBudget(args.budget)
      requires forall item :: ShardRows(open(item)) == w.contents(item)
      modifies this
      ensures (disk, r) == Export(w, old(disk), args, now, provider)
    {
      var loaded := if args.cursor then LoadCursor(disk, args.scope) else Ok(None);
      if loaded.Err? {
        return Err(loaded.error);
      }
      var waiting := Waiting(loaded.value, args, now);
      var s;
      if StartsCycle(loaded.value, args, now) {
        if provider.None? || provider.value == [] {
          return Err(ProviderUnavailable);
        }
        s := FreshState(args.scope, provider.value);
      } else {
        s := loaded.value.value;
      }
      if s.pending.None? {
        var scan := DeferredScan(s.position);
        if !waiting {
          var shards := seq(|s.files|, i requires 0 <= i < |s.files| => open(s.files[i]));
          assert Contents(shards) == w.Files(s.files);
          var page := ScanPage(shards, w.matches(s.scope), args.budget, s.position);
          if page.Err? {
            return Err(ScanFailed);
          }
          scan := page.value;
        }
        s := s.(pending := Some(MakePending(s, scan, waiting)));
        if args.cursor && !args.preview {
          disk := Some(s);
        }
      }
      return Ok(s.pending.value);
    }
  }
}
