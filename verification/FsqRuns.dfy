/**
 * Safety of the Foursquare cursor over whole runs: any interleaving of exports, previews, right and
 * wrong acknowledgements, crashes and clock readings, starting from no cursor at all.
 */
module FsqRuns {
  import opened Wrappers
  import opened Sequences
  import opened FsqScan
  import opened FsqPages
  import opened FsqCursor

  /** A crash before the cursor is replaced leaves no trace; one after it only loses the output. */
  datatype Event =
    | ExportEvent(args: Args, now: real, provider: Option<seq<FileItem>>)
    | AckEvent(scope: ScopeId, id: Digest, now: real)
    | CrashBeforeWrite

  /** The cursor file and the pages acknowledged since its present cycle began. */
  datatype History = History(disk: Option<CursorState>, acked: seq<PageBody>)

  ghost predicate RestartsCycle(w: World, disk: Option<CursorState>, e: Event)
    requires e.ExportEvent?
  {
    && e.args.cursor && !e.args.preview
    && LoadCursor(disk, e.args.scope).Ok? && StartsCycle(LoadCursor(disk, e.args.scope).value, e.args, e.now)
    && Export(w, disk, e.args, e.now, e.provider).1.Ok?
  }

  ghost function Next(w: World, h: History, e: Event): History
  {
    match e
    case CrashBeforeWrite => h
    case ExportEvent(args, now, provider) =>
      History(Export(w, h.disk, args, now, provider).0, if RestartsCycle(w, h.disk, e) then [] else h.acked)
    case AckEvent(scope, id, now) =>
      var (disk, error) := Acknowledge(h.disk, scope, id, now);
      History(disk, if error.None? then h.acked + [h.disk.value.pending.value.body] else h.acked)
  }

  ghost function Run(w: World, events: seq<Event>): History
  {
    if events == [] then History(None, [])
    else Next(w, Run(w, events[..|events| - 1]), events[|events| - 1])
  }

  /** Budgets are range-checked by the argument parser. */
  predicate Admissible(events: seq<Event>)
  {
    forall i | 0 <= i < |events| :: events[i].ExportEvent? ==> ValidBudget(events[i].args.budget)
  }

  ghost function AckedRows(acked: seq<PageBody>): seq<Row>
  {
    if acked == [] then [] else AckedRows(acked[..|acked| - 1]) + acked[|acked| - 1].scan.rows
  }

  /** The matching rows of the first `n` rows of the pinned files. */
  ghost function Matching(w: World, s: CursorState, n: nat): seq<Row>
    requires n <= |Flatten(w.Files(s.files))|
  {
    Filter(w.matches(s.scope), Flatten(w.Files(s.files))[..n])
  }

  /** How many rows of the flat sequence the cursor has moved past. */
  ghost function Passed(w: World, s: CursorState): nat
    requires InRange(w.Files(s.files), s.position)
  {
    if s.complete then |Flatten(w.Files(s.files))| else Flat(w.Files(s.files), s.position)
  }

  ghost function WorkLeft(w: World, s: CursorState): int
    requires InRange(w.Files(s.files), s.position)
  {
    if s.complete then 0 else Work(w.Files(s.files), s.position)
  }

  /** A scan step from `start`: the exact slice, with progress. */
  ghost predicate ExactScan(files: seq<seq<Row>>, keep: Row -> bool, start: Position, scan: Scan)
  {
    && InRange(files, start) && InRange(files, scan.next)
    && Flat(files, start) <= End(files, scan) <= |Flatten(files)|
    && scan.rows == Filter(keep, Flatten(files)[Flat(files, start)..End(files, scan)])
    && (scan.cycleComplete ==> scan.next == Position(0, 0))
    && (!scan.cycleComplete ==> Work(files, scan.next) < Work(files, start))
  }

  /** A pending page belongs to the cursor that holds it. */
  ghost predicate Fits(w: World, s: CursorState, body: PageBody)
  {
    && body.scope == s.scope && body.filesDigest == s.filesDigest && body.start == s.position
    && body.deferred == s.complete
    && if body.deferred then body.scan == DeferredScan(s.position)
       else ExactScan(w.Files(s.files), w.matches(s.scope), body.start, body.scan)
  }

  /** Distinct non-deferred pages of one cycle start at ever later places; `floor` bounds the work still left. */
  ghost predicate Descending(w: World, s: CursorState, acked: seq<PageBody>, floor: int)
  {
    && (forall i | 0 <= i < |acked| && !acked[i].deferred ::
          InRange(w.Files(s.files), acked[i].start) && Work(w.Files(s.files), acked[i].start) > floor)
    && (forall i, j | 0 <= i < j < |acked| && !acked[i].deferred && !acked[j].deferred ::
          Work(w.Files(s.files), acked[i].start) > Work(w.Files(s.files), acked[j].start))
  }

  ghost function Scans(acked: seq<PageBody>): nat
  {
    if acked == [] then 0
    else Scans(acked[..|acked| - 1]) + if acked[|acked| - 1].deferred then 0 else 1
  }

  ghost predicate Inv(w: World, h: History)
  {
    match h.disk
    case None => h.acked == []
    case Some(s) =>
      var files := w.Files(s.files);
      && LoadCursor(h.disk, s.scope) == Ok(h.disk)
      && InRange(files, s.position)
      && (s.complete ==> s.position == Position(0, 0))
      && Passed(w, s) <= |Flatten(files)|
      && AckedRows(h.acked) == Matching(w, s, Passed(w, s))
      && (s.pending.Some? ==> Fits(w, s, s.pending.value.body))
      && Descending(w, s, h.acked, WorkLeft(w, s))
      && Scans(h.acked) + WorkLeft(w, s) <= |files| + |Flatten(files)|
  }

  lemma {:induction false} ScanFits(w: World, s: CursorState, b: Budget)
    requires InRange(w.Files(s.files), s.position) && ValidBudget(b)
    ensures ExactScan(w.Files(s.files), w.matches(s.scope), s.position,
                      ScanFrom(w.Files(s.files), w.matches(s.scope), s.position, b))
  {
    PageIsSlice(w.Files(s.files), w.matches(s.scope), s.position, b);
    PageMakesProgress(w.Files(s.files), w.matches(s.scope), s.position, b);
  }

  lemma {:induction false} FreshInv(w: World, scope: ScopeId, items: seq<FileItem>)
    requires items != []
    ensures Inv(w, History(Some(FreshState(scope, items)), []))
  {
    var files := w.Files(items);
    assert files[..0] == [] && Flatten(files)[..0] == [];
  }

  /** Adding the next page to a cursor with nothing pending. */
  lemma {:induction false} PendingInv(w: World, h: History, scan: Scan, waiting: bool)
    requires Inv(w, h) && h.disk.Some? && h.disk.value.pending.None?
    requires Fits(w, h.disk.value, MakePending(h.disk.value, scan, waiting).body)
    ensures Inv(w, h.(disk := Some(h.disk.value.(pending := Some(MakePending(h.disk.value, scan, waiting))))))
  {
  }

  lemma {:induction false} InvBasics(w: World, h: History)
    requires Inv(w, h) && h.disk.Some?
    ensures var s := h.disk.value;
            && LoadCursor(h.disk, s.scope) == Ok(h.disk)
            && InRange(w.Files(s.files), s.position)
            && (s.complete ==> s.position == Position(0, 0))
            && (s.pending.Some? ==> Fits(w, s, s.pending.value.body))
  {
  }

  lemma {:induction false} ExportKeepsInv(w: World, h: History, e: Event)
    requires Inv(w, h) && e.ExportEvent? && ValidBudget(e.args.budget)
    ensures Inv(w, Next(w, h, e))
  {
    hide ScanFrom, Inv;
    if Export(w, h.disk, e.args, e.now, e.provider).0 != h.disk {
      var loaded := LoadCursor(h.disk, e.args.scope).value;
      var waiting := Waiting(loaded, e.args, e.now);
      if StartsCycle(loaded, e.args, e.now) {
        var s := FreshState(e.args.scope, e.provider.value);
        FreshInv(w, e.args.scope, e.provider.value);
        ScanFits(w, s, e.args.budget);
        PendingInv(w, History(Some(s), []), NextScan(w, s, e.args, waiting).value, waiting);
      } else {
        var s := h.disk.value;
        InvBasics(w, h);
        ScanFits(w, s, e.args.budget);
        PendingInv(w, h, NextScan(w, s, e.args, waiting).value, waiting);
      }
    }
  }

  lemma {:induction false} AckedOneMore(acked: seq<PageBody>, body: PageBody)
    ensures AckedRows(acked + [body]) == AckedRows(acked) + body.scan.rows
    ensures Scans(acked + [body]) == Scans(acked) + if body.deferred then 0 else 1
  {
    assert (acked + [body])[..|acked + [body]| - 1] == acked;
  }

  lemma {:induction false} DescendingOneMore(
      w: World, s: CursorState, s': CursorState, acked: seq<PageBody>, body: PageBody, floor: int, floor': int)
    requires Descending(w, s, acked, floor) && floor' <= floor && s'.files == s.files
    requires !body.deferred ==>
               InRange(w.Files(s.files), body.start)
               && floor' < Work(w.Files(s.files), body.start) <= floor
    ensures Descending(w, s', acked + [body], floor')
  {
    var grown := acked + [body];
    forall i | 0 <= i < |grown| && !grown[i].deferred
      ensures InRange(w.Files(s.files), grown[i].start) && Work(w.Files(s.files), grown[i].start) > floor'
    {
      assert i < |acked| ==> grown[i] == acked[i];
    }
    forall i, j | 0 <= i < j < |grown| && !grown[i].deferred && !grown[j].deferred
      ensures Work(w.Files(s.files), grown[i].start) > Work(w.Files(s.files), grown[j].start)
    {
      assert grown[i] == acked[i];
      assert j < |acked| ==> grown[j] == acked[j];
    }
  }

  /** Acknowledging a page extends the acknowledged rows by exactly the slice the cursor moves over. */
  lemma {:induction false} AckExtendsRows(w: World, s: CursorState, now: real)
    requires s.pending.Some? && InRange(w.Files(s.files), s.position) && Passed(w, s) <= |Flatten(w.Files(s.files))|
    requires Fits(w, s, s.pending.value.body)
    ensures var s' := Acknowledged(s, now);
            && InRange(w.Files(s.files), s'.position)
            && Passed(w, s') <= |Flatten(w.Files(s.files))|
            && Matching(w, s', Passed(w, s')) == Matching(w, s, Passed(w, s)) + s.pending.value.body.scan.rows
  {
    var body, s' := s.pending.value.body, Acknowledged(s, now);
    var all := Flatten(w.Files(s.files));
    if !body.deferred {
      FilterSlices(w.matches(s.scope), all, 0, Passed(w, s), Passed(w, s'));
      assert all[0..Passed(w, s)] == all[..Passed(w, s)] && all[0..Passed(w, s')] == all[..Passed(w, s')];
    }
  }

  lemma {:induction false} AckMovesOn(w: World, s: CursorState, now: real)
    requires s.pending.Some? && InRange(w.Files(s.files), s.position) && LoadCursor(Some(s), s.scope).Ok?
    requires Fits(w, s, s.pending.value.body) && (s.complete ==> s.position == Position(0, 0))
    ensures var s' := Acknowledged(s, now);
            && LoadCursor(Some(s'), s'.scope) == Ok(Some(s'))
            && InRange(w.Files(s.files), s'.position) && (s'.complete ==> s'.position == Position(0, 0))
            && if s.pending.value.body.deferred then WorkLeft(w, s') == WorkLeft(w, s)
               else WorkLeft(w, s') < Work(w.Files(s.files), s.pending.value.body.start) == WorkLeft(w, s)
  {
    FlatWithin(w.Files(s.files), s.position);
  }

  /** What an acknowledged page leaves behind. */
  ghost function Moved(h: History, now: real): History
    requires h.disk.Some? && h.disk.value.pending.Some?
  {
    History(Some(Acknowledged(h.disk.value, now)), h.acked + [h.disk.value.pending.value.body])
  }

  /** A deferred page adds no rows and leaves the place of the cursor alone. */
  lemma {:induction false} DeferredAckKeepsInv(w: World, h: History, now: real)
    requires Inv(w, h) && h.disk.Some? && h.disk.value.pending.Some? && h.disk.value.pending.value.body.deferred
    ensures Inv(w, Moved(h, now))
  {
    hide Work, Flat, Descending, Flatten, Filter, AckedRows, Scans;
    var s := h.disk.value;
    AckedOneMore(h.acked, s.pending.value.body);
    DescendingOneMore(w, s, Acknowledged(s, now), h.acked, s.pending.value.body, WorkLeft(w, s), WorkLeft(w, s));
  }

  /** A scanned page adds exactly the slice the cursor moves over. */
  lemma {:induction false} ScannedAckKeepsInv(w: World, h: History, now: real)
    requires Inv(w, h) && h.disk.Some? && h.disk.value.pending.Some? && !h.disk.value.pending.value.body.deferred
    ensures Inv(w, Moved(h, now))
  {
    hide Fits, Flat, Work, Descending, Flatten, Filter, AckedRows, Scans, Acknowledged, WorkLeft;
    var s := h.disk.value;
    var body, s' := s.pending.value.body, Acknowledged(s, now);
    SameCycle(s, now);
    AckExtendsRows(w, s, now);
    AckMovesOn(w, s, now);
    AckedOneMore(h.acked, body);
    DescendingOneMore(w, s, s', h.acked, body, WorkLeft(w, s), WorkLeft(w, s'));
  }

  lemma SameCycle(s: CursorState, now: real)
    requires s.pending.Some?
    ensures var s' := Acknowledged(s, now);
            s'.scope == s.scope && s'.files == s.files && s'.pending.None?
  {
  }

  lemma {:induction false} AckKeepsInv(w: World, h: History, e: Event)
    requires Inv(w, h) && e.AckEvent?
    ensures Inv(w, Next(w, h, e))
  {
    hide Inv;
    if Acknowledge(h.disk, e.scope, e.id, e.now).1.None? {
      if h.disk.value.pending.value.body.deferred {
        DeferredAckKeepsInv(w, h, e.now);
      } else {
        ScannedAckKeepsInv(w, h, e.now);
      }
    }
  }

  lemma {:induction false} RunInv(w: World, events: seq<Event>)
    requires Admissible(events)
    ensures Inv(w, Run(w, events))
  {
    if events != [] {
      var before, e := events[..|events| - 1], events[|events| - 1];
      RunInv(w, before);
      match e
      case ExportEvent(_, _, _) => ExportKeepsInv(w, Run(w, before), e);
      case AckEvent(_, _, _) => AckKeepsInv(w, Run(w, before), e);
      case CrashBeforeWrite =>
    }
  }

  /**
   * The main theorem: after any run the pages acknowledged in the present cycle, concatenated, are
   * exactly the matching rows the cursor has passed, in order and each once; all of them when complete.
   */
  lemma CycleRowsAreExact(w: World, events: seq<Event>)
    requires Admissible(events) && Run(w, events).disk.Some?
    ensures var h := Run(w, events);
            var s := h.disk.value;
            var all := Flatten(w.Files(s.files));
            && InRange(w.Files(s.files), s.position) && Flat(w.Files(s.files), s.position) <= |all|
            && AckedRows(h.acked) ==
               Filter(w.matches(s.scope), if s.complete then all else all[..Flat(w.Files(s.files), s.position)])
  {
    RunInv(w, events);
    var s := Run(w, events).disk.value;
    var all := Flatten(w.Files(s.files));
    FlatWithin(w.Files(s.files), s.position);
    assert all[..|all|] == all;
  }

  /** Every cursor the program writes is one its own loader accepts, and its scan never fails on it. */
  lemma EveryCursorLoads(w: World, events: seq<Event>, args: Args, now: real, provider: Option<seq<FileItem>>)
    requires Admissible(events) && Run(w, events).disk.Some? && args.cursor
    ensures var disk := Run(w, events).disk;
            && LoadCursor(disk, disk.value.scope) == Ok(disk)
            && (args.scope == disk.value.scope ==>
                  Export(w, disk, args, now, provider).1.Ok?
                  || (StartsCycle(disk, args, now)
                      && Export(w, disk, args, now, provider).1 == Err(ProviderUnavailable)))
  {
    RunInv(w, events);
    InvBasics(w, Run(w, events));
  }

  /** A cycle has at most as many non-deferred pages as the pinned release has files and rows. */
  lemma CycleIsFinite(w: World, events: seq<Event>)
    requires Admissible(events) && Run(w, events).disk.Some?
    ensures var s := Run(w, events).disk.value;
            Scans(Run(w, events).acked) <= |s.files| + |Flatten(w.Files(s.files))|
  {
    RunInv(w, events);
    var s := Run(w, events).disk.value;
    FlatWithin(w.Files(s.files), s.position);
  }

  /** The non-deferred pages of one cycle have pairwise different identities. */
  lemma PageIdsAreUnique(w: World, events: seq<Event>, i: nat, j: nat)
    requires Admissible(events)
    requires i < j < |Run(w, events).acked|
    requires !Run(w, events).acked[i].deferred && !Run(w, events).acked[j].deferred
    ensures OfPage(Run(w, events).acked[i]) != OfPage(Run(w, events).acked[j])
  {
    RunInv(w, events);
  }

  /** What an acknowledgement accepts is the very page whose identity it names, and it can be used once. */
  lemma AckNamesItsPage(disk: Option<CursorState>, scope: ScopeId, page: PageBody, now: real, again: real)
    requires Acknowledge(disk, scope, OfPage(page), now).1.None?
    ensures disk.Some? && disk.value.pending == Some(Pending(page, OfPage(page)))
    ensures Acknowledge(Acknowledge(disk, scope, OfPage(page), now).0, scope, OfPage(page), again).1.Some?
  {
  }

  ghost function RunOn(w: World, h: History, events: seq<Event>): History
  {
    if events == [] then h else Next(w, RunOn(w, h, events[..|events| - 1]), events[|events| - 1])
  }

  /** Until its own identity is acknowledged, a pending page survives everything and is replayed identically. */
  lemma {:induction false} PendingIsReplayed(w: World, h: History, events: seq<Event>)
    requires Inv(w, h) && h.disk.Some? && h.disk.value.pending.Some?
    requires forall i | 0 <= i < |events| :: events[i].AckEvent? ==> events[i].id != h.disk.value.pending.value.pageId
    ensures RunOn(w, h, events) == h
    ensures forall args: Args, now: real, provider: Option<seq<FileItem>>
              | args.cursor && args.scope == h.disk.value.scope ::
              Export(w, h.disk, args, now, provider) == (h.disk, Ok(h.disk.value.pending.value))
  {
    if events != [] {
      PendingIsReplayed(w, h, events[..|events| - 1]);
    }
  }

  /** The completion time moves only when a scan page ends the cycle, or when a new cycle is written. */
  lemma CompletionTimeMoves(w: World, events: seq<Event>, e: Event)
    requires Admissible(events) && Run(w, events).disk.Some?
    ensures var s := Run(w, events).disk.value;
            var h' := Next(w, Run(w, events), e);
            && h'.disk.Some?
            && (h'.disk.value.completedAt != s.completedAt ==>
                  || (e.AckEvent? && s.pending.Some? && !s.pending.value.body.deferred && !s.complete
                      && h'.disk.value.complete && h'.disk.value.completedAt == e.now)
                  || (e.ExportEvent? && StartsCycle(Some(s), e.args, e.now) && h'.acked == []))
  {
    RunInv(w, events);
    var h := Run(w, events);
    InvBasics(w, h);
    hide Run, Inv, Fits, Export;
    match e
    case AckEvent(_, _, now) =>
    case ExportEvent(_, _, _) => ExportMovesTime(w, h, e);
    case CrashBeforeWrite =>
  }

  lemma ExportMovesTime(w: World, h: History, e: Event)
    requires h.disk.Some? && e.ExportEvent?
    ensures var h' := Next(w, h, e);
            && h'.disk.Some?
            && (h'.disk.value.completedAt != h.disk.value.completedAt ==>
                  StartsCycle(h.disk, e.args, e.now) && h'.acked == [])
  {
    hide ScanFrom, Flatten;
  }

  /** One scheduler round: export a page, then acknowledge it. */
  ghost function Round(w: World, h: History, args: Args, now: real): History
  {
    var exported := Next(w, h, ExportEvent(args, now, None));
    if exported.disk.None? || exported.disk.value.pending.None? then exported
    else Next(w, exported, AckEvent(args.scope, exported.disk.value.pending.value.pageId, now))
  }

  /** At most `n` rounds, stopping when the cycle is complete. */
  ghost function Rounds(w: World, h: History, args: Args, now: real, n: nat): History
    decreases n
  {
    if n == 0 || (h.disk.Some? && h.disk.value.complete) then h else Rounds(w, Round(w, h, args, now), args, now, n - 1)
  }

  lemma {:induction false} RoundMakesProgress(w: World, h: History, args: Args, now: real)
    requires Inv(w, h) && h.disk.Some? && !h.disk.value.complete
    requires args.cursor && !args.preview && args.scope == h.disk.value.scope && ValidBudget(args.budget)
    ensures var h' := Round(w, h, args, now);
            && Inv(w, h') && h'.disk.Some? && h'.disk.value.scope == h.disk.value.scope
            && h'.disk.value.files == h.disk.value.files
            && WorkLeft(w, h'.disk.value) < WorkLeft(w, h.disk.value)
  {
    hide ScanFrom, Inv, Work;
    var step := ExportEvent(args, now, None);
    InvBasics(w, h);
    ExportKeepsInv(w, h, step);
    var mid := Next(w, h, step);
    InvBasics(w, mid);
    var ack := AckEvent(args.scope, mid.disk.value.pending.value.pageId, now);
    AckKeepsInv(w, mid, ack);
    FlatWithin(w.Files(h.disk.value.files), h.disk.value.position);
    InvBasics(w, Next(w, mid, ack));
  }

  /** Acknowledging every exported page completes any cycle, within as many rounds as there is work left. */
  lemma {:induction false} EveryCycleCompletes(w: World, h: History, args: Args, now: real, n: nat)
    requires Inv(w, h) && h.disk.Some?
    requires args.cursor && !args.preview && args.scope == h.disk.value.scope && ValidBudget(args.budget)
    requires WorkLeft(w, h.disk.value) <= n
    ensures Rounds(w, h, args, now, n).disk.Some? && Rounds(w, h, args, now, n).disk.value.complete
    decreases n
  {
    hide ScanFrom, Inv, Work, Export, Acknowledge;
    InvBasics(w, h);
    FlatWithin(w.Files(h.disk.value.files), h.disk.value.position);
    if !h.disk.value.complete {
      RoundMakesProgress(w, h, args, now);
      EveryCycleCompletes(w, Round(w, h, args, now), args, now, n - 1);
    }
  }
}
