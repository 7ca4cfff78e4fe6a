/** Runs of the drain: others append to the log, torn in the middle of lines and characters, or
    replace it; ticks meet bad lines, lines that raise, a failing or spoiled ledger and a cursor
    that is not saved; other writers change the ledger. */
module DrainRuns {
  import opened Outcome
  import opened TextLines
  import opened HandoffLedger
  import opened RequestLog
  import opened RequestDrain
  import opened Utf8

  // ------------------------------------------------------------------- every run

  datatype Event =
    | Write(chunk: Bytes)
    | Replace(raw: Option<Bytes>)
    | Drain(up: nat -> bool, saved: bool)
    | LoseCursor
    | Edit(op: Op)

  function Next(t: Tools, d: Desk, e: Event): Desk {
    match e
    case Write(chunk) => d.(log := Some((if d.log.Some? then d.log.value else []) + chunk))
    case Replace(raw) => d.(log := raw)
    case Drain(up, saved) => Tick(t, d, up, saved)
    case LoseCursor => d.(cursor := Cursor(0, ""), covered := [])
    case Edit(op) => d.(items := After(t.words, d.items, op))
  }

  function Run(t: Tools, d: Desk, es: seq<Event>): Desk
    decreases |es|
  {
    if es == [] then d else Run(t, Next(t, d, es[0]), es[1..])
  }

  /** Whether this line, if it opens a row, has exactly one. */
  ghost predicate OpenedOnce(t: Tools, items: seq<Item>, line: string) {
    Opens(t, line) ==>
      exists k | 0 <= k < |items| && items[k].Entry? ::
        && items[k].row.id == t.wanted(line).row.id
        && forall j | 0 <= j < |items| && j != k && items[j].Entry? :: items[j].row.id != t.wanted(line).row.id
  }

  lemma HasIdIsOnce(t: Tools, items: seq<Item>, line: string)
    requires UniqueIds(items) && (Opens(t, line) ==> HasId(items, t.wanted(line).row.id))
    ensures OpenedOnce(t, items, line)
  {
    if Opens(t, line) {
      var k :| 0 <= k < |items| && items[k].Entry? && items[k].row.id == t.wanted(line).row.id;
      assert forall j | 0 <= j < |items| && j != k && items[j].Entry? :: items[j].row.id != t.wanted(line).row.id;
    }
  }

  /** What is left of the row makes no parser raise a ValueError. */
  predicate Quiet(w: Words, row: Row) {
    Poison(ValueError) !in Back(w, Entry(row))
  }

  predicate QuietLine(t: Tools, line: string) {
    t.wanted(line).Asks? ==> Quiet(t.words, t.wanted(line).row)
  }

  ghost predicate Inv(t: Tools, d: Desk) {
    && ValidTools(t) && Sound(t.words, d.items) && Poison(ValueError) !in d.items
    && d.cursor == CursorAt(t, d.covered, |d.covered|)
    && forall k | 0 <= k < |d.covered| :: OpenedOnce(t, d.items, d.covered[k])
  }

  /** The log was only appended to since the cursor was saved, or the cursor notices. */
  ghost predicate Noticed(t: Tools, d: Desk) {
    Drains(d) ==> Desync(t, LinesOf(d), d.cursor) || d.covered <= LinesOf(d)
  }

  /** An allowed operation of another writer, which swaps no line separator into a row and
      appends none that the parser would raise a ValueError on. */
  predicate Harmless(w: Words, op: Op) {
    && Allowed(op) && (op.CasOp? ==> CleanText(op.now) && CleanText(op.note))
    && (op.AppendOp? && Validate(w, op.row).Ok? ==> Quiet(w, Validate(w, op.row).value))
  }

  ghost predicate Permitted(t: Tools, d: Desk, e: Event) {
    match e
    case Drain(_, _) => Noticed(t, d) && forall line | line in LinesOf(d) :: QuietLine(t, line)
    case Edit(op) => Harmless(t.words, op)
    case _ => true
  }

  lemma BackKeepsQuiet(w: Words, items: seq<Item>, item: Item)
    requires Poison(ValueError) !in items && Poison(ValueError) !in Back(w, item)
    ensures Poison(ValueError) !in items + Back(w, item)
  {
  }

  /** A swap among clean rows that writes no separator leaves no other item than the row. */
  lemma CleanSwapReads(w: Words, items: seq<Item>, op: Op)
    requires Sound(w, items) && op.CasOp? && CleanText(op.now) && CleanText(op.note) && Do(w, items, op).Wrote?
    ensures After(w, items, op) == Do(w, items, op).items
    ensures forall item: Item | !item.Entry? :: item in After(w, items, op) <==> item in items
  {
    var k, next := Seek(items, op.id, Some(op.wanted)), Do(w, items, op).items;
    assert Entry(items[k].row) in items;
    CleanSwap(items[k].row, op.wanted, op.to, op.now, op.note);
    forall r | Entry(r) in next ensures Clean(r) {
      if Entry(r) != next[k] { assert Entry(r) in items; }
    }
    CleanReread(w, next);
    WritesNoOther(w, items, op);
  }

  lemma RemoveReads(w: Words, items: seq<Item>, id: string)
    requires Sound(w, items) && Remove(items, id).Wrote?
    ensures After(w, items, RemoveOp(id)) == Without(items, id)
  {
    WithoutKeeps(items, id);
    CleanReread(w, Without(items, id));
  }

  lemma AppendReads(w: Words, items: seq<Item>, row: Row)
    requires Sound(w, items) && Append(w, items, row).Wrote?
    ensures After(w, items, AppendOp(row)) == items + Back(w, Entry(Validate(w, row).value))
  {
    RereadAdds(w, items, Entry(Validate(w, row).value));
    CleanReread(w, items);
  }

  lemma HarmlessStaysQuiet(w: Words, items: seq<Item>, op: Op)
    requires Sound(w, items) && Harmless(w, op) && Poison(ValueError) !in items
    ensures Poison(ValueError) !in After(w, items, op)
  {
    if Do(w, items, op).Wrote? {
      match op
      case AppendOp(row) =>
        AppendReads(w, items, row);
        BackKeepsQuiet(w, items, Entry(Validate(w, row).value));
      case CasOp(_, _, _, _, _) => CleanSwapReads(w, items, op);
      case RemoveOp(id) =>
        RemoveReads(w, items, id);
        WithoutKeeps(items, id);
    }
  }

  lemma RowStays(t: Tools, items: seq<Item>, op: Op, line: string)
    requires Sound(t.words, items) && ValidTools(t) && Harmless(t.words, op) && OpenedOnce(t, items, line)
    ensures OpenedOnce(t, After(t.words, items, op), line)
  {
    AfterKeepsSound(t.words, items, op);
    if Opens(t, line) {
      var id := t.wanted(line).row.id;
      AfterToRow(t.words, items, op, id);
      if Wins(t.words, items, op, id) { CleanSwap(RowOf(items, id).value, op.wanted, op.to, op.now, op.note); }
      HasIdIsOnce(t, After(t.words, items, op), line);
    }
  }

  lemma {:induction false} DrainStaysQuiet(t: Tools, items: seq<Item>, lines: seq<string>, i: nat, up: nat -> bool)
    requires i <= |lines| && Sound(t.words, items) && ValidTools(t) && Poison(ValueError) !in items
    requires forall line | line in lines :: QuietLine(t, line)
    ensures Poison(ValueError) !in DrainFrom(t, items, lines, i, up).items
    decreases |lines| - i
  {
    if i < |lines| && FateOf(t, items, lines[i], up(i)).Passed? {
      PassKeeps(t, items, lines[i], "");
      assert QuietLine(t, lines[i]) by { assert lines[i] in lines; }
      if t.wanted(lines[i]).Asks? {
        AppendAdds(t.words, items, t.wanted(lines[i]).row);
        BackKeepsQuiet(t.words, items, Entry(t.wanted(lines[i]).row));
      }
      DrainStaysQuiet(t, ItemsPast(t, items, lines[i]), lines, i + 1, up);
    }
  }

  /** Every line a drain has passed, in this tick or before, has its one row afterwards. */
  lemma DrainedLinesOpened(t: Tools, items: seq<Item>, lines: seq<string>, i: nat, up: nat -> bool, k: nat)
    requires Sound(t.words, items) && ValidTools(t) && i <= |lines| && Poison(ValueError) !in DrainFrom(t, items, lines, i, up).items
    requires k < DrainFrom(t, items, lines, i, up).next && (k < i ==> OpenedOnce(t, items, lines[k]))
    ensures OpenedOnce(t, DrainFrom(t, items, lines, i, up).items, lines[k])
  {
    var r := DrainFrom(t, items, lines, i, up);
    if Opens(t, lines[k]) {
      DrainKeeps(t, items, lines, i, up, t.wanted(lines[k]).row.id);
      if k >= i { DrainOpens(t, items, lines, i, up, k, r); }
      HasIdIsOnce(t, r.items, lines[k]);
    }
  }

  lemma EarlierRowsStay(t: Tools, items: seq<Item>, lines: seq<string>, i: nat, up: nat -> bool, line: string)
    requires Sound(t.words, items) && ValidTools(t) && i <= |lines| && OpenedOnce(t, items, line)
    ensures OpenedOnce(t, DrainFrom(t, items, lines, i, up).items, line)
  {
    if Opens(t, line) {
      DrainKeeps(t, items, lines, i, up, t.wanted(line).row.id);
      HasIdIsOnce(t, DrainFrom(t, items, lines, i, up).items, line);
    }
  }

  lemma AllOpened(t: Tools, items: seq<Item>, lines: seq<string>, i: nat, up: nat -> bool, r: Drained)
    requires i <= |lines| && Sound(t.words, items) && ValidTools(t) && r == DrainFrom(t, items, lines, i, up)
    requires Poison(ValueError) !in r.items && forall k | 0 <= k < i :: OpenedOnce(t, items, lines[k])
    ensures forall k | 0 <= k < |lines[..r.next]| :: OpenedOnce(t, r.items, lines[..r.next][k])
  {
    forall k | 0 <= k < |lines[..r.next]| ensures OpenedOnce(t, r.items, lines[..r.next][k]) {
      DrainedLinesOpened(t, items, lines, i, up, k);
    }
  }

  lemma AllStay(t: Tools, items: seq<Item>, lines: seq<string>, i: nat, up: nat -> bool, r: Drained, covered: seq<string>)
    requires i <= |lines| && Sound(t.words, items) && ValidTools(t) && r == DrainFrom(t, items, lines, i, up)
    requires forall k | 0 <= k < |covered| :: OpenedOnce(t, items, covered[k])
    ensures forall k | 0 <= k < |covered| :: OpenedOnce(t, r.items, covered[k])
  {
    forall k | 0 <= k < |covered| ensures OpenedOnce(t, r.items, covered[k]) {
      EarlierRowsStay(t, items, lines, i, up, covered[k]);
    }
  }

  lemma StartIsOpened(t: Tools, d: Desk)
    requires Inv(t, d) && Noticed(t, d) && Drains(d)
    ensures forall k | 0 <= k < StartOf(t, LinesOf(d), d.cursor) :: OpenedOnce(t, d.items, LinesOf(d)[k])
  {
    forall k | 0 <= k < StartOf(t, LinesOf(d), d.cursor) ensures OpenedOnce(t, d.items, LinesOf(d)[k]) {
      assert LinesOf(d)[k] == d.covered[k];
    }
  }

  lemma TickKeepsInv(t: Tools, d: Desk, up: nat -> bool, saved: bool)
    requires Inv(t, d) && Permitted(t, d, Drain(up, saved))
    ensures Inv(t, Tick(t, d, up, saved))
  {
    if Drains(d) {
      var lines := LinesOf(d);
      var start := StartOf(t, lines, d.cursor);
      var r := DrainFrom(t, d.items, lines, start, up);
      DrainKeeps(t, d.items, lines, start, up, "");
      DrainStaysQuiet(t, d.items, lines, start, up);
      StartIsOpened(t, d);
      if saved && !r.raised {
        AllOpened(t, d.items, lines, start, up, r);
      } else {
        AllStay(t, d.items, lines, start, up, r, d.covered);
      }
    }
  }

  lemma NextKeepsInv(t: Tools, d: Desk, e: Event)
    requires Inv(t, d) && Permitted(t, d, e)
    ensures Inv(t, Next(t, d, e))
  {
    match e
    case Drain(up, saved) => TickKeepsInv(t, d, up, saved);
    case Edit(op) =>
      AfterKeepsSound(t.words, d.items, op);
      HarmlessStaysQuiet(t.words, d.items, op);
      forall k | 0 <= k < |d.covered| ensures OpenedOnce(t, After(t.words, d.items, op), d.covered[k]) {
        RowStays(t, d.items, op, d.covered[k]);
      }
    case _ =>
  }

  ghost predicate PermittedRun(t: Tools, d: Desk, es: seq<Event>)
    decreases |es|
  {
    es == [] || (Permitted(t, d, es[0]) && PermittedRun(t, Next(t, d, es[0]), es[1..]))
  }

  /** Over every run of writes of arbitrary bytes, replaced logs that the cursor notices, ticks
      with failing ledgers, stray values in the ledger or lines that raise, lost cursor saves,
      lost cursors and other ledger writers, in which no row is written that the ledger's parser
      would raise a ValueError on: every request before the cursor that holds no line separator
      has exactly one row. */
  lemma {:induction false} CoveredOpenedOnce(t: Tools, d: Desk, es: seq<Event>)
    requires Inv(t, d) && PermittedRun(t, d, es)
    ensures Inv(t, Run(t, d, es))
    decreases |es|
  {
    if es != [] {
      NextKeepsInv(t, d, es[0]);
      CoveredOpenedOnce(t, Next(t, d, es[0]), es[1..]);
    }
  }

  /** Why that condition: on a ledger whose first such line raises a ValueError, a working tick
      passes every request up to the first line that blocks, and opens none of them. */
  lemma {:induction false} ValueErrorSkips(t: Tools, items: seq<Item>, lines: seq<string>, i: nat, up: nat -> bool)
    requires i <= |lines| && !Readable(items) && FirstError(items) == ValueError && forall k :: up(k)
    ensures var r := DrainFrom(t, items, lines, i, up); r.items == items && r.next == FirstBlock(t, lines, i)
    decreases |lines| - i
  {
    if i < |lines| && !Blocks(t, lines[i]) { ValueErrorSkips(t, items, lines, i + 1, up); }
  }

  // ------------------------------------------------------------- append-only logs

  predicate AppendOnly(w: Words, e: Event) {
    !e.Replace? && (e.Edit? ==> Harmless(w, e.op))
  }

  /** These are the first lines of a beginning of the log that can be read, and so of the whole
      log whenever that can be read. */
  ghost predicate Leads(first: seq<string>, log: Option<Bytes>) {
    if log.None? then first == []
    else exists n | 0 <= n <= |log.value| && Legible(log.value[..n]) :: first <= LogLines(log.value[..n])
  }

  lemma LeadsRead(first: seq<string>, raw: Bytes)
    requires Leads(first, Some(raw)) && Legible(raw)
    ensures first <= LogLines(raw)
  {
    var n :| 0 <= n <= |raw| && Legible(raw[..n]) && first <= LogLines(raw[..n]);
    LogGrowsIff(raw, n);
  }

  lemma LeadsHere(first: seq<string>, raw: Bytes)
    requires Legible(raw) && first <= LogLines(raw)
    ensures Leads(first, Some(raw))
  {
    assert raw[..|raw|] == raw;
  }

  lemma LeadsGrows(first: seq<string>, log: Option<Bytes>, chunk: Bytes)
    requires Leads(first, log)
    ensures Leads(first, Some((if log.Some? then log.value else []) + chunk))
  {
    var raw := if log.Some? then log.value else [];
    var all := raw + chunk;
    if log.Some? {
      var n :| 0 <= n <= |raw| && Legible(raw[..n]) && first <= LogLines(raw[..n]);
      assert all[..n] == raw[..n];
    } else {
      assert all[..0] == [] && Legible(all[..0]);
    }
  }

  /** The lines before the cursor are the first lines of the log. */
  ghost predicate InStep(t: Tools, d: Desk) {
    Inv(t, d) && Leads(d.covered, d.log)
  }

  lemma InStepReads(t: Tools, d: Desk)
    requires Leads(d.covered, d.log) && d.cursor == CursorAt(t, d.covered, |d.covered|) && Drains(d)
    ensures d.covered <= LinesOf(d) && d.cursor.line == |d.covered| && StartOf(t, LinesOf(d), d.cursor) == d.cursor.line
  {
    LeadsRead(d.covered, d.log.value);
  }

  /** A tick, or any other event but a replaced log, keeps the first lines of the log first, and
      the cursor's lines among them. */
  lemma AppendOnlyLeads(t: Tools, d: Desk, e: Event, first: seq<string>)
    requires !e.Replace? && Leads(first, d.log) && Leads(d.covered, d.log) && d.cursor == CursorAt(t, d.covered, |d.covered|)
    ensures var next := Next(t, d, e);
            Leads(first, next.log) && Leads(next.covered, next.log) && next.cursor == CursorAt(t, next.covered, |next.covered|)
  {
    match e
    case Write(chunk) =>
      LeadsGrows(first, d.log, chunk);
      LeadsGrows(d.covered, d.log, chunk);
    case Drain(up, saved) =>
      if Drains(d) {
        var next := Tick(t, d, up, saved);
        InStepReads(t, d);
        if next.covered <= LinesOf(d) { LeadsHere(next.covered, d.log.value); }
      }
    case LoseCursor => NoneLead(d.log, d.covered);
    case _ =>
  }

  lemma NoneLead(log: Option<Bytes>, first: seq<string>)
    requires Leads(first, log)
    ensures Leads([], log)
  {
    if log.Some? {
      var n :| 0 <= n <= |log.value| && Legible(log.value[..n]) && first <= LogLines(log.value[..n]);
      assert [] <= LogLines(log.value[..n]);
    }
  }

  lemma AppendOnlyStays(t: Tools, d: Desk, e: Event)
    requires InStep(t, d) && AppendOnly(t.words, e) && (e.Drain? ==> forall line | line in LinesOf(d) :: QuietLine(t, line))
    ensures InStep(t, Next(t, d, e))
  {
    if e.Drain? && Drains(d) { InStepReads(t, d); }
    NextKeepsInv(t, d, e);
    AppendOnlyLeads(t, d, e, d.covered);
  }

  /** What a tick with a working lock and disk leaves behind, on a free ledger and a log that can
      be read and that the cursor is in step with or notices: with `n` the first line from its
      start on that blocks, every request before `n` that holds no line separator has exactly
      one row; the ledger is free; and the cursor is at `n`, unless line `n` raises, which
      leaves it where it was. */
  ghost predicate TickDone(t: Tools, d: Desk, done: Desk) {
    var lines := LinesOf(d);
    var n := FirstBlock(t, lines, StartOf(t, lines, d.cursor));
    && (forall k | 0 <= k < n :: OpenedOnce(t, done.items, lines[k])) && Free(done.items)
    && done.cursor == if n < |lines| && t.wanted(lines[n]).Raises? then d.cursor else CursorAt(t, lines, n)
  }

  /** No wild request of a new id stands before the first line that blocks. */
  ghost predicate Unspoiled(t: Tools, d: Desk) {
    var lines := LinesOf(d);
    var start := StartOf(t, lines, d.cursor);
    NoneSpoils(t, d.items, lines, start, FirstBlock(t, lines, start))
  }

  /** That is what it leaves behind if no wild request of a new id stands before `n`, and only
      then does it leave the ledger free. */
  lemma CleanTickOpensAll(t: Tools, d: Desk, up: nat -> bool)
    requires Inv(t, d) && Free(d.items) && Noticed(t, d) && Drains(d) && forall k :: up(k)
    ensures Unspoiled(t, d) ==> TickDone(t, d, Tick(t, d, up, true))
    ensures Free(Tick(t, d, up, true).items) <==> Unspoiled(t, d)
  {
    var lines := LinesOf(d);
    var start := StartOf(t, lines, d.cursor);
    WorkingDrain(t, d.items, lines, start, up, DrainFrom(t, d.items, lines, start, up), FirstBlock(t, lines, start));
    var done := Tick(t, d, up, true);
    if Unspoiled(t, d) {
      assert Poison(ValueError) !in done.items;
      forall k | 0 <= k < FirstBlock(t, lines, start) ensures OpenedOnce(t, done.items, lines[k]) {
        if k < start { assert OpenedOnce(t, d.items, d.covered[k]); }
        DrainedLinesOpened(t, d.items, lines, start, up, k);
      }
    }
  }

  /** No drain of the run meets a wild request in the log, and no other writer writes a row
      that is not tame. */
  ghost predicate TameRun(t: Tools, d: Desk, es: seq<Event>)
    decreases |es|
  {
    es == [] || (
      && (es[0].Drain? ==> forall line | line in LinesOf(d) :: !Wild(t, line))
      && (es[0].Edit? && es[0].op.AppendOp? && Validate(t.words, es[0].op.row).Ok? ==> Tame(t.words, Validate(t.words, es[0].op.row).value))
      && TameRun(t, Next(t, d, es[0]), es[1..]))
  }

  lemma TameIsQuiet(w: Words, row: Row)
    requires Tame(w, row)
    ensures Quiet(w, row)
  {
  }

  lemma HarmlessStaysFree(w: Words, items: seq<Item>, op: Op)
    requires Sound(w, items) && Free(items) && Harmless(w, op)
    requires op.AppendOp? && Validate(w, op.row).Ok? ==> Tame(w, Validate(w, op.row).value)
    ensures Free(After(w, items, op))
  {
    if Do(w, items, op).Wrote? {
      match op
      case AppendOp(row) =>
        AppendReads(w, items, row);
        FreeJoin(items, Back(w, Entry(Validate(w, row).value)));
      case CasOp(_, _, _, _, _) => CleanSwapReads(w, items, op);
      case RemoveOp(id) =>
        RemoveReads(w, items, id);
        WithoutKeeps(items, id);
    }
  }

  lemma TameStep(t: Tools, d: Desk, e: Event, es: seq<Event>)
    requires InStep(t, d) && Free(d.items) && AppendOnly(t.words, e) && TameRun(t, d, [e] + es)
    ensures InStep(t, Next(t, d, e)) && Free(Next(t, d, e).items) && TameRun(t, Next(t, d, e), es)
  {
    assert ([e] + es)[1..] == es;
    if e.Drain? {
      forall line | line in LinesOf(d) && t.wanted(line).Asks? ensures QuietLine(t, line) { TameIsQuiet(t.words, t.wanted(line).row); }
      if Drains(d) {
        var lines := LinesOf(d);
        var start := StartOf(t, lines, d.cursor);
        DrainFreeIff(t, d.items, lines, start, e.up, DrainFrom(t, d.items, lines, start, e.up));
        assert forall k | start <= k < |lines| :: lines[k] in lines;
      }
    }
    AppendOnlyStays(t, d, e);
    if e.Edit? { HarmlessStaysFree(t.words, d.items, e.op); }
  }

  /** As long as the log is only appended to, in whatever chunks of bytes, and all requests and
      rows are tame: at every moment the ledger is free and each request before the cursor that
      holds no line separator has exactly one row, and the next tick with a working lock and
      disk, if the log can be read, does the same for every request before the first line that
      blocks; if no line after the cursor blocks, that is the whole log. */
  lemma {:induction false} ExactlyOnce(t: Tools, d: Desk, es: seq<Event>, up: nat -> bool)
    requires InStep(t, d) && Free(d.items) && (forall k :: 0 <= k < |es| ==> AppendOnly(t.words, es[k])) && TameRun(t, d, es)
    ensures var end := Run(t, d, es);
            && InStep(t, end) && Free(end.items) && (Drains(end) ==> end.covered <= LinesOf(end))
            && (forall k | 0 <= k < end.cursor.line :: OpenedOnce(t, end.items, end.covered[k]))
            && ((forall k :: up(k)) && Drains(end) && (forall line | line in LinesOf(end) :: !Wild(t, line)) ==>
                TickDone(t, end, Tick(t, end, up, true)))
    decreases |es|
  {
    if es == [] {
      if Drains(d) {
        InStepReads(t, d);
        if (forall k :: up(k)) && (forall line | line in LinesOf(d) :: !Wild(t, line)) {
          assert forall k | 0 <= k < |LinesOf(d)| :: LinesOf(d)[k] in LinesOf(d);
          CleanTickOpensAll(t, d, up);
        }
      }
    } else {
      assert es == [es[0]] + es[1..];
      TameStep(t, d, es[0], es[1..]);
      ExactlyOnce(t, Next(t, d, es[0]), es[1..], up);
    }
  }

  // ------------------------------------------------------- lines that block, rows lost

  /** Whatever happens to a spoiled ledger, and to the log, it is spoiled for ever, and no id
      that has no row gets one. */
  lemma {:induction false} SpoiledLedgerOpensNothing(t: Tools, d: Desk, es: seq<Event>, id: string)
    requires !Free(d.items)
    ensures var end := Run(t, d, es); !Free(end.items) && (HasId(end.items, id) ==> HasId(d.items, id))
    decreases |es|
  {
    if es != [] {
      match es[0] {
        case Drain(up, saved) => if Drains(d) { SpoiledDrain(t, d.items, LinesOf(d), StartOf(t, LinesOf(d), d.cursor), up); }
        case Edit(op) => SpoiledStays(t.words, d.items, op, id);
        case _ =>
      }
      SpoiledLedgerOpensNothing(t, Next(t, d, es[0]), es[1..], id);
    }
  }

  /** What stops the drain at a line for ever: the line raises, or its deadline is past the
      calendar; or the ledger is spoiled by something other than a ValueError of the parser, and
      the line asks for a row of a new id. */
  ghost predicate Stuck(t: Tools, items: seq<Item>, line: string) {
    || Blocks(t, line)
    || (!Free(items) && Poison(ValueError) !in items && t.wanted(line).Asks? && !HasId(items, t.wanted(line).row.id))
  }

  lemma SpoiledHolds(t: Tools, items: seq<Item>, line: string, up: bool)
    requires ValidTools(t) && Stuck(t, items, line)
    ensures !FateOf(t, items, line, up).Passed?
  {
    if !Blocks(t, line) {
      var row := t.wanted(line).row;
      if !Readable(items) {
        ErrorInside(items);
      } else {
        var bad :| bad in items && !bad.Entry? && !bad.Object?;
        var j :| 0 <= j < |items| && items[j] == bad;
        assert Ends(items[j], row.id, None);
      }
    }
  }

  /** A drain does not pass a line that it is stuck at. */
  lemma {:induction false} DrainStopsAt(t: Tools, items: seq<Item>, lines: seq<string>, i: nat, up: nat -> bool, k: nat)
    requires i <= k < |lines| && ValidTools(t) && Stuck(t, items, lines[k])
    ensures DrainFrom(t, items, lines, i, up).next <= k
    decreases k - i
  {
    if i == k {
      SpoiledHolds(t, items, lines[k], up(k));
    } else if FateOf(t, items, lines[i], up(i)).Passed? {
      if !Free(items) { SpoiledPass(t, items, lines[i]); }
      DrainStopsAt(t, ItemsPast(t, items, lines[i]), lines, i + 1, up, k);
    }
  }

  lemma StuckStays(t: Tools, d: Desk, e: Event, line: string)
    requires Sound(t.words, d.items) && ValidTools(t) && AppendOnly(t.words, e) && Stuck(t, d.items, line)
    ensures Sound(t.words, Next(t, d, e).items) && Stuck(t, Next(t, d, e).items, line)
  {
    match e
    case Drain(up, saved) =>
      if Drains(d) {
        var lines := LinesOf(d);
        var start := StartOf(t, lines, d.cursor);
        DrainKeeps(t, d.items, lines, start, up, "");
        if !Free(d.items) { SpoiledDrain(t, d.items, lines, start, up); }
      }
    case Edit(op) =>
      AfterKeepsSound(t.words, d.items, op);
      if !Blocks(t, line) {
        SpoiledStays(t.words, d.items, op, t.wanted(line).row.id);
        HarmlessStaysQuiet(t.words, d.items, op);
      }
    case _ =>
  }

  /** One event does not take the cursor past a line that the drain is stuck at. */
  lemma StuckStep(t: Tools, d: Desk, e: Event, first: seq<string>, k: nat)
    requires Sound(t.words, d.items) && ValidTools(t) && AppendOnly(t.words, e)
    requires Leads(d.covered, d.log) && d.cursor == CursorAt(t, d.covered, |d.covered|)
    requires Leads(first, d.log) && d.cursor.line <= k < |first| && Stuck(t, d.items, first[k])
    ensures Next(t, d, e).cursor.line <= k
  {
    if e.Drain? && Drains(d) {
      InStepReads(t, d);
      LeadsRead(first, d.log.value);
      DrainStopsAt(t, d.items, LinesOf(d), d.cursor.line, e.up, k);
    }
  }

  lemma Alike(first: seq<string>, more: seq<string>, k: nat)
    requires first <= more && k < |first|
    ensures first[k] == more[k] && first[..k] == more[..k]
  {
  }

  /** A drain that blocks at a line opens only what stands before it. */
  lemma StuckOpens(t: Tools, d: Desk, up: nat -> bool, saved: bool, first: seq<string>, k: nat, id: string)
    requires Sound(t.words, d.items) && ValidTools(t) && Drains(d)
    requires Leads(d.covered, d.log) && d.cursor == CursorAt(t, d.covered, |d.covered|)
    requires Leads(first, d.log) && d.cursor.line <= k < |first| && Stuck(t, d.items, first[k])
    ensures HasId(Tick(t, d, up, saved).items, id) ==> HasId(d.items, id) || OpensId(t, first[..k], id)
  {
    var lines, c := LinesOf(d), d.cursor.line;
    InStepReads(t, d);
    LeadsRead(first, d.log.value);
    Alike(first, lines, k);
    DrainStopsAt(t, d.items, lines, c, up, k);
    DrainKeeps(t, d.items, lines, c, up, id);
    var n := DrainFrom(t, d.items, lines, c, up).next;
    if OpensId(t, lines[c..n], id) { OpensIdWithin(t, lines, c, n, k, id); }
  }

  /** A line that the drain is stuck at blocks it for ever: over every run that only appends to
      the log, torn characters included, the cursor never passes that line, and no request after
      it is opened by a drain. */
  lemma {:induction false} BlocksForEver(t: Tools, d: Desk, es: seq<Event>, first: seq<string>, k: nat, id: string)
    requires Sound(t.words, d.items) && ValidTools(t) && forall j :: 0 <= j < |es| ==> AppendOnly(t.words, es[j])
    requires Leads(d.covered, d.log) && d.cursor == CursorAt(t, d.covered, |d.covered|)
    requires Leads(first, d.log) && d.cursor.line <= k < |first| && Stuck(t, d.items, first[k])
    ensures var end := Run(t, d, es);
            && end.cursor.line <= k && Stuck(t, end.items, first[k])
            && ((forall j | 0 <= j < |es| :: !es[j].Edit?) && HasId(end.items, id) ==> HasId(d.items, id) || OpensId(t, first[..k], id))
    decreases |es|
  {
    if es != [] {
      var e, next := es[0], Next(t, d, es[0]);
      StuckStays(t, d, e, first[k]);
      StuckStep(t, d, e, first, k);
      AppendOnlyLeads(t, d, e, first);
      if e.Drain? && Drains(d) { StuckOpens(t, d, e.up, e.saved, first, k, id); }
      BlocksForEver(t, next, es[1..], first, k, id);
      assert (forall j | 0 <= j < |es| :: !es[j].Edit?) ==> !e.Edit? && forall j | 0 <= j < |es[1..]| :: !es[1..][j].Edit?;
    }
  }

  /** A line that blocks by itself: a request whose deadline is a whole number that has no
      float, for example one of 310 digits. */
  lemma HugeDeadlineBlocks(parse: string -> Parsed, w: Words, anchor: string -> string, d: Desk, es: seq<Event>, k: nat)
    requires InStep(ToolsOf(parse, w, anchor), d) && Drains(d) && d.cursor.line <= k < |LinesOf(d)|
    requires var r := parse(LinesOf(d)[k]);
             r.Request? && r.sendId != "" && r.openedAt != "" && Overflows(r.declared)
    requires forall j :: 0 <= j < |es| ==> AppendOnly(w, es[j])
    ensures Run(ToolsOf(parse, w, anchor), d, es).cursor.line <= k
  {
    LeadsHere(LinesOf(d), d.log.value);
    BlocksForEver(ToolsOf(parse, w, anchor), d, es, LinesOf(d), k, "");
  }

  /** A log that was torn inside a character and written to again is never read any more: no
      tick changes anything, whatever is appended. */
  lemma {:induction false} TornLogBlocks(t: Tools, d: Desk, es: seq<Event>, whole: Bytes, c: char, torn: Bytes, next: byte, more: Bytes)
    requires Legible(whole) && torn != [] && torn < EncodeChar(c) && !Continues(next)
    requires d.log == Some(whole + (torn + [next] + more)) && forall j :: 0 <= j < |es| ==> !es[j].Replace? && !es[j].Edit?
    ensures var end := Run(t, d, es); !Drains(end) && end.items == d.items && end.cursor.line <= d.cursor.line
    decreases |es|
  {
    TornNeverDecodes(whole, c, torn, next, more);
    if es != [] {
      if es[0].Write? {
        var chunk := es[0].chunk;
        assert (whole + (torn + [next] + more)) + chunk == whole + (torn + [next] + (more + chunk));
        TornLogBlocks(t, Next(t, d, es[0]), es[1..], whole, c, torn, next, more + chunk);
      } else {
        TornLogBlocks(t, Next(t, d, es[0]), es[1..], whole, c, torn, next, more);
      }
    }
  }

  /** The state in which a tick meets one request alone: the log holds one request to drain, of a new id. */
  ghost predicate AtRequest(t: Tools, d: Desk, line: string) {
    && InStep(t, d) && Free(d.items) && Drains(d) && d.cursor.line == 0 && LinesOf(d) == [line]
    && t.wanted(line).Asks? && !HasId(d.items, t.wanted(line).row.id)
  }

  /** A working tick over a log of one request: it is passed, and what an append leaves of its
      row is added. */
  lemma OneRequest(t: Tools, d: Desk, line: string, up: nat -> bool)
    requires AtRequest(t, d, line) && forall k :: up(k)
    ensures var done := Tick(t, d, up, true);
            done.cursor.line == 1 && done.items == d.items + Back(t.words, Entry(t.wanted(line).row))
  {
    var row := t.wanted(line).row;
    InStepReads(t, d);
    FreePass(t, d.items, line);
    FreeWorks(t.words, d.items, AppendOp(row));
    AppendAdds(t.words, d.items, row);
    assert DrainFrom(t, d.items, [line], 0, up) == DrainFrom(t, ItemsPast(t, d.items, line), [line], 1, up);
  }

  lemma NoIdAdded(a: seq<Item>, b: seq<Item>, id: string)
    requires NoEntries(b)
    ensures HasId(a + b, id) <==> HasId(a, id)
  {
    forall k | |a| <= k < |a + b| ensures !(a + b)[k].Entry? { assert (a + b)[k] == b[k - |a|] && b[k - |a|] in b; }
    if HasId(a, id) {
      var k :| 0 <= k < |a| && a[k].Entry? && a[k].row.id == id;
      assert (a + b)[k] == a[k];
    }
  }

  /** A request that is not clean is passed, and no id gets a row. */
  lemma UncleanRequest(t: Tools, d: Desk, line: string, up: nat -> bool, id: string)
    requires AtRequest(t, d, line) && (forall k :: up(k)) && !Clean(t.wanted(line).row)
    ensures var done := Tick(t, d, up, true);
            && done.cursor.line == 1 && done.items == d.items + Leftover(t.words, t.wanted(line).row)
            && (HasId(done.items, id) <==> HasId(d.items, id))
  {
    OneRequest(t, d, line, up);
    LeftoverNoEntries(t.words, t.wanted(line).row);
    NoIdAdded(d.items, Leftover(t.words, t.wanted(line).row), id);
  }

  lemma AskedRow(parse: string -> Parsed, w: Words, line: string)
    requires Wanted(parse, w, line).Asks?
    ensures RowFor(w, parse(line), Wanted(parse, w, line).row)
  {
    AsksIff(parse, w, line, Wanted(parse, w, line).row);
  }

  lemma SeparatorInside(row: Row)
    requires row.action == "a\U{2028}b"
    ensures !Clean(row)
  {
    assert row.action[1] == '\U{2028}' && row.action[1] in row.action;
  }

  /** A good request whose action holds a line separator is passed and never opened: the drain
      asks for its row, the ledger writes it, and no reader finds it. */
  lemma SeparatorLosesRequest(parse: string -> Parsed, w: Words, anchor: string -> string, d: Desk, line: string, up: nat -> bool)
    requires AtRequest(ToolsOf(parse, w, anchor), d, line) && forall k :: up(k)
    requires parse(line).Request? && parse(line).action == "a\U{2028}b"
    ensures var t := ToolsOf(parse, w, anchor);
            var done := Tick(t, d, up, true);
            done.cursor.line == 1 && !HasId(done.items, t.wanted(line).row.id)
  {
    var t := ToolsOf(parse, w, anchor);
    AskedRow(parse, w, line);
    SeparatorInside(t.wanted(line).row);
    UncleanRequest(t, d, line, up, t.wanted(line).row.id);
  }

  /** A request that leaves a value stops the ledger: from then on, whatever happens, no id gets
      a row any more that has none. */
  lemma StrayRequest(t: Tools, d: Desk, line: string, up: nat -> bool, es: seq<Event>, id: string, stray: Item)
    requires AtRequest(t, d, line) && (forall k :: up(k)) && !Clean(t.wanted(line).row)
    requires stray.Stray? && stray in Leftover(t.words, t.wanted(line).row)
    ensures var done := Tick(t, d, up, true);
            && done.cursor.line == 1 && stray in done.items
            && (HasId(Run(t, done, es).items, id) ==> HasId(d.items, id))
  {
    UncleanRequest(t, d, line, up, id);
    var done := Tick(t, d, up, true);
    assert stray in done.items && !Free(done.items);
    SpoiledLedgerOpensNothing(t, done, es, id);
  }

  lemma {:induction false} LeftAllHas(w: Words, ts: seq<string>, k: nat, item: Item)
    requires k < |ts| && item in LeftOf(w, ts[k])
    ensures item in LeftOfAll(w, ts)
  {
    var first, rest := LeftOf(w, ts[0]), LeftOfAll(w, ts[1..]);
    if k > 0 {
      LeftAllHas(w, ts[1..], k - 1, item);
      assert item in first + rest;
    }
  }

  lemma InnerIsIn(w: Words, t: string, a: string, c: char, part: string, b: string, item: Item)
    requires CleanText(a) && Separates(c) && CleanText(part) && t == a + [c] + (part + [c] + b) && item in Inner(w, part)
    ensures !CleanText(t) && item in LeftOf(w, t)
  {
    InnerIsLeft(w, a, c, part, c, b);
    assert t[|a|] == c && t[|a|] in t;
  }

  lemma ActionIsLeft(w: Words, row: Row, item: Item)
    requires !CleanText(row.action) && item in LeftOf(w, row.action)
    ensures !Clean(row) && item in Leftover(w, row)
  {
    LeftAllHas(w, TextsOf(row), 3, item);
  }

  lemma StrayIsLeft(w: Words, row: Row)
    requires row.action == "a\U{2028}1\U{2028}b" && w.loads("1") == Some(Stray("1"))
    ensures !Clean(row) && Stray("1") in Leftover(w, row)
  {
    assert Written("1") == "1" && Strip("1") == "1";
    assert Inner(w, "1") == [Stray("1")];
    InnerIsIn(w, row.action, "a", '\U{2028}', "1", "b", Stray("1"));
    ActionIsLeft(w, row, Stray("1"));
  }

  /** A good request with the number 1 between two line separators does that: the drain passes
      it, and from then on, whatever happens, no id gets a row any more that has none. */
  lemma RequestSpoilsLedger(parse: string -> Parsed, w: Words, anchor: string -> string, d: Desk, line: string, up: nat -> bool,
                            es: seq<Event>, id: string)
    requires AtRequest(ToolsOf(parse, w, anchor), d, line) && forall k :: up(k)
    requires parse(line).Request? && parse(line).action == "a\U{2028}1\U{2028}b" && w.loads("1") == Some(Stray("1"))
    ensures var t := ToolsOf(parse, w, anchor);
            var done := Tick(t, d, up, true);
            && done.cursor.line == 1 && Stray("1") in done.items
            && (HasId(Run(t, done, es).items, id) ==> HasId(d.items, id))
  {
    var t := ToolsOf(parse, w, anchor);
    AskedRow(parse, w, line);
    StrayIsLeft(w, t.wanted(line).row);
    StrayRequest(t, d, line, up, es, id, Stray("1"));
  }

  // ------------------------------------------------------------- replaced logs

  /** With anchors that tell these lines apart, the cursor notices a replaced log exactly
      when it is shorter, or holds another line where the last drained one was. */
  lemma NoticesIff(t: Tools, d: Desk)
    requires Inv(t, d) && d.covered != [] && (forall line :: t.anchor(line) != "")
    requires forall x, y :: t.anchor(x) == t.anchor(y) ==> x == y
    ensures var lines := LinesOf(d);
            var n := |d.covered|;
            Desync(t, lines, d.cursor) <==> n > |lines| || lines[n - 1] != d.covered[n - 1]
  {
  }

  lemma WorkingExact(t: Tools, items: seq<Item>, lines: seq<string>, i: nat, up: nat -> bool, id: string, r: Drained)
    requires i <= |lines| && Sound(t.words, items) && ValidTools(t) && Free(items) && forall j :: up(j)
    requires r == DrainFrom(t, items, lines, i, up) && NoneSpoils(t, items, lines, i, FirstBlock(t, lines, i))
    ensures HasId(r.items, id) <==> HasId(items, id) || OpensId(t, lines[i..FirstBlock(t, lines, i)], id)
  {
    WorkingDrain(t, items, lines, i, up, r, FirstBlock(t, lines, i));
    DrainExact(t, items, lines, i, up, id, r);
  }

  /** After a working tick on a free ledger that noticed nothing and met no wild request of a new
      id, an id has a row exactly when it had one before, or a line from the cursor up to the
      first that blocks opens it: lines before the cursor are not read. */
  lemma UnnoticedIff(t: Tools, d: Desk, up: nat -> bool, id: string)
    requires Sound(t.words, d.items) && ValidTools(t) && Free(d.items) && Drains(d) && (forall j :: up(j))
    requires !Desync(t, LinesOf(d), d.cursor) && Unspoiled(t, d)
    ensures var lines, c := LinesOf(d), d.cursor.line;
            HasId(Tick(t, d, up, true).items, id) <==> HasId(d.items, id) || OpensId(t, lines[c..FirstBlock(t, lines, c)], id)
  {
    WorkingExact(t, d.items, LinesOf(d), d.cursor.line, up, id, DrainFrom(t, d.items, LinesOf(d), d.cursor.line, up));
  }

  /** A log rewritten before the cursor, with the same line under it, loses a request: the
      cursor was saved at the second of two lines, the first was replaced by a new request. */
  lemma RewriteUnderSameLineLoses(t: Tools, d: Desk, old0: string, line: string, up: nat -> bool)
    requires Inv(t, d) && d.covered == [old0, line] && Drains(d) && t.anchor(line) != ""
    requires |LinesOf(d)| == 2 && LinesOf(d)[1] == line
    requires t.wanted(LinesOf(d)[0]).Asks? && !HasId(d.items, t.wanted(LinesOf(d)[0]).row.id)
    ensures !HasId(Tick(t, d, up, true).items, t.wanted(LinesOf(d)[0]).row.id)
  {
    assert DrainFrom(t, d.items, LinesOf(d), 2, up) == Drained(d.items, 2, false);
  }
}
