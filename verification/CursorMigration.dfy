/** The one-time migration of the legacy Scribe cursor: a receipt over the queue it was taken
    from, which has to stay verifiable while that queue keeps growing. */
module CursorMigration {
  import opened Outcome
  import opened TextLines
  import opened Utf8

  // ------------------------------------------------------- the shared directory

  datatype Queue = Queue(device: nat, inode: nat, raw: Bytes)

  /** A file whose name matches the per-process cursor pattern, with the pid in the name. */
  datatype Entry = Entry(path: string, pid: int, raw: Bytes)

  /** The queue, the role checkpoint and the process cursors in name order. */
  datatype Shared = Shared(queue: Queue, role: Bytes, cursors: seq<Entry>)

  datatype Cursor = Cursor(line: int, pid: int, role: string, anchor: string)
  datatype Record = Record(path: string, pid: int, line: int, anchor: string, sha: string)

  /** The paths a receipt names, and how a process cursor is named. */
  datatype Places = Places(shared: string, target: string, cursorPath: int -> string)

  datatype Selected = Selected(path: string, pid: int, sha: string)

  datatype Basis = Basis(
    shared: string, target: string, device: nat, inode: nat, size: nat, queueSha: string, lines: nat,
    roleSha: string, line: int, anchor: string, selected: Option<Selected>)

  datatype Receipt = Receipt(basis: Basis, seal: string)

  /** Digests and readers: `readLine` accepts an object with only an integer `line`, and
      `readCursor` one with exactly a cursor's four keys, of the right types. */
  datatype Tools = Tools(
    sha: Bytes -> string, seal: Basis -> string, anchor: string -> string,
    readLine: Bytes -> Option<int>, readCursor: Bytes -> Option<Cursor>)

  const MAX_QUEUE := 64 * 1024 * 1024
  const MAX_CURSOR := 8192

  /** The complete lines of a queue that ends with a newline and is UTF-8. */
  function CompleteLines(raw: Bytes): Result<seq<string>> {
    var _ :- Check(raw == [] || raw[|raw| - 1] == 10);
    match Decode(raw)
    case None => Refused
    case Some(text) => Ok(LinesIn(text))
  }

  function QueueLines(queue: Queue): Result<seq<string>> {
    var _ :- Check(|queue.raw| <= MAX_QUEUE);
    CompleteLines(queue.raw)
  }

  function RoleLine(t: Tools, role: Bytes): Result<int> {
    var _ :- Check(|role| <= MAX_CURSOR);
    match t.readLine(role)
    case None => Refused
    case Some(line) => if line >= 0 then Ok(line) else Refused
  }

  /** A process cursor counts only if it is anchored in the queue and its process is dead. */
  function RecordOf(t: Tools, e: Entry, lines: seq<string>, dead: int -> bool): Result<Record> {
    var _ :- Check(|e.raw| <= MAX_CURSOR && t.readCursor(e.raw).Some?);
    var c := t.readCursor(e.raw).value;
    var _ :- Check(
      && c.pid > 1 && c.pid == e.pid && c.role == "scribe" && 0 <= c.line <= |lines|
      && (if c.line == 0 then c.anchor == "" else c.anchor == t.anchor(lines[c.line - 1])));
    if dead(c.pid) then Ok(Record(e.path, c.pid, c.line, c.anchor, t.sha(e.raw))) else Refused
  }

  function Records(t: Tools, cursors: seq<Entry>, lines: seq<string>, dead: int -> bool): Result<seq<Record>> {
    if cursors == [] then Ok([])
    else
      var first :- RecordOf(t, cursors[0], lines, dead);
      var rest :- Records(t, cursors[1..], lines, dead);
      Ok([first] + rest)
  }

  function FirstAt(records: seq<Record>, line: int): Option<Record> {
    if records == [] then None
    else if records[0].line == line then Some(records[0])
    else FirstAt(records[1..], line)
  }

  // -------------------------------------------------------------- the migration

  /** The private state directory: the migrated checkpoint and its receipt. */
  datatype State = State(target: Option<int>, receipt: Option<Receipt>)

  function AnchorAt(t: Tools, lines: seq<string>, line: int): string
    requires line <= |lines|
  {
    if line <= 0 then "" else t.anchor(lines[line - 1])
  }

  function ReceiptOf(t: Tools, pl: Places, dir: Shared, lines: seq<string>, line: int, selected: Option<Record>): Receipt
    requires line <= |lines|
  {
    var basis := Basis(
      pl.shared, pl.target, dir.queue.device, dir.queue.inode, |dir.queue.raw|, t.sha(dir.queue.raw), |lines|,
      t.sha(dir.role), line, AnchorAt(t, lines, line),
      if selected.None? then None else Some(Selected(selected.value.path, selected.value.pid, selected.value.sha)));
    Receipt(basis, t.seal(basis))
  }

  /** The receipt that a migration writes after reading the directory twice; refused unless
      the queue only grew in between and nothing else changed. */
  function Migration(t: Tools, pl: Places, first: Shared, second: Shared, dead: int -> bool): Result<Receipt> {
    var lines :- QueueLines(first.queue);
    var line :- RoleLine(t, first.role);
    var _ :- Check(line <= |lines|);
    var records :- Records(t, first.cursors, lines, dead);
    var selected := FirstAt(records, line);
    var _ :- Check(line == 0 || selected.Some?);
    var after :- QueueLines(second.queue);
    var again :- RoleLine(t, second.role);
    var recordsAgain :- Records(t, second.cursors, after, dead);
    var _ :- Check(
      && second.queue.device == first.queue.device && second.queue.inode == first.queue.inode
      && first.queue.raw <= second.queue.raw && again == line && second.role == first.role && recordsAgain == records);
    Ok(ReceiptOf(t, pl, first, lines, line, selected))
  }

  datatype Ended = Migrated(receipt: Receipt) | Declined | Crashed

  /** An initial migration writes the checkpoint, then the receipt, and may die in between. */
  function Migrate(t: Tools, pl: Places, st: State, first: Shared, second: Shared, dead: int -> bool, fuel: nat): (State, Ended) {
    if st.target.Some? || st.receipt.Some? then (st, Declined)
    else match Migration(t, pl, first, second, dead)
         case Refused => (st, Declined)
         case Ok(receipt) =>
           if fuel == 0 then (st, Crashed)
           else if fuel == 1 then (State(Some(receipt.basis.line), None), Crashed)
           else (State(Some(receipt.basis.line), Some(receipt)), Migrated(receipt))
  }

  predicate SelectedValid(pl: Places, b: Basis, records: seq<Record>) {
    match b.selected
    case None => b.line == 0
    case Some(s) =>
      s.path == pl.cursorPath(s.pid)
      && exists k | 0 <= k < |records| :: records[k].path == s.path && records[k].pid == s.pid && records[k].line == b.line && records[k].sha == s.sha
  }

  function Verify(t: Tools, pl: Places, st: State, dir: Shared, dead: int -> bool): Result<Receipt> {
    var _ :- Check(st.receipt.Some? && st.target.Some?);
    var b := st.receipt.value.basis;
    var _ :- Check(
      && b.line >= 0 && b.shared == pl.shared && b.target == pl.target && st.receipt.value.seal == t.seal(b) && b.lines >= b.line
      && st.target.value >= 0);
    var lines :- QueueLines(dir.queue);
    var line :- RoleLine(t, dir.role);
    var records :- Records(t, dir.cursors, lines, dead);
    var _ :- Check(
      && SelectedValid(pl, b, records)
      && dir.queue.device == b.device && dir.queue.inode == b.inode && |dir.queue.raw| >= b.size
      && t.sha(dir.queue.raw[..b.size]) == b.queueSha && t.sha(dir.role) == b.roleSha && line == b.line);
    var source :- CompleteLines(dir.queue.raw[..b.size]);
    var _ :- Check(
      && |source| == b.lines && b.line <= st.target.value <= |lines| && b.line <= |lines|
      && b.anchor == AnchorAt(t, lines, b.line));
    Ok(st.receipt.value)
  }

  // -------------------------------------------------------------- growing queues

  lemma WholeIffNewline(raw: Bytes)
    requires Decode(raw).Some? && (raw == [] || raw[|raw| - 1] == 10)
    ensures Whole(Decode(raw).value)
  {
    if raw != [] { NewlineLast(raw); }
  }

  /** Bytes after whole records: their lines come after, or the queue stops being readable. */
  lemma LinesGrow(old0: Bytes, more: Bytes, now: Bytes)
    requires CompleteLines(old0).Ok? && now == old0 + more && CompleteLines(now).Ok?
    ensures CompleteLines(old0).value <= CompleteLines(now).value
    ensures Decode(more).Some?
  {
    DecodeAppended(old0, more, now);
    WholeIffNewline(old0);
    LinesAppended(Decode(old0).value, Decode(more).value, Decode(now).value);
  }

  lemma WholeRecordsReadable(old0: Bytes, more: Bytes, now: Bytes)
    requires CompleteLines(old0).Ok? && CompleteLines(more).Ok? && now == old0 + more
    ensures CompleteLines(now).Ok?
  {
    DecodeAppended(old0, more, now);
    if more != [] { assert now[|now| - 1] == more[|more| - 1]; } else { assert now == old0; }
  }

  /** No process of these cursors is alive. */
  predicate AllDead(cursors: seq<Entry>, dead: int -> bool) {
    forall k | 0 <= k < |cursors| :: dead(cursors[k].pid)
  }

  /** Cursors anchored in a queue stay anchored while it grows, for as long as their process
      ids are not in use again. */
  lemma {:induction false} RecordsStay(t: Tools, cursors: seq<Entry>, lines: seq<string>, more: seq<string>, dead: int -> bool, later: int -> bool)
    requires Records(t, cursors, lines, dead).Ok? && lines <= more
    ensures Records(t, cursors, more, later) == if AllDead(cursors, later) then Records(t, cursors, lines, dead) else Refused
  {
    if cursors != [] {
      RecordsStay(t, cursors[1..], lines, more, dead, later);
      assert AllDead(cursors, later) <==> later(cursors[0].pid) && AllDead(cursors[1..], later);
    }
  }

  lemma {:induction false} FirstAtFound(records: seq<Record>, line: int)
    ensures match FirstAt(records, line)
            case None => forall k | 0 <= k < |records| :: records[k].line != line
            case Some(r) => r.line == line && exists k | 0 <= k < |records| :: records[k] == r
  {
    if records != [] {
      FirstAtFound(records[1..], line);
      if records[0].line != line && FirstAt(records, line).Some? {
        var k :| 0 <= k < |records[1..]| && records[1..][k] == FirstAt(records, line).value;
        assert records[k + 1] == FirstAt(records, line).value;
      } else if records[0].line != line {
        assert forall k | 1 <= k < |records| :: records[k] == records[1..][k - 1];
      }
    }
  }

  /** The selected cursor, if there is one, has the one name that verification rebuilds from
      its process id: no leading zero, no other digits. */
  predicate SelectedNamed(pl: Places, b: Basis) {
    b.selected.Some? ==> b.selected.value.path == pl.cursorPath(b.selected.value.pid)
  }

  /** Some time later: the queue only gained bytes, and the role checkpoint is as it was. */
  ghost predicate Grown(first: Shared, dir: Shared, more: Bytes) {
    dir.queue == first.queue.(raw := first.queue.raw + more) && dir.role == first.role
  }

  /** What a migration has read, and the receipt it makes of it. */
  lemma MigrationParts(t: Tools, pl: Places, first: Shared, second: Shared, dead: int -> bool)
    returns (lines: seq<string>, line: int, records: seq<Record>)
    requires Migration(t, pl, first, second, dead).Ok?
    ensures CompleteLines(first.queue.raw) == Ok(lines) && RoleLine(t, first.role) == Ok(line) && 0 <= line <= |lines|
    ensures Records(t, first.cursors, lines, dead) == Ok(records) && (line == 0 || FirstAt(records, line).Some?)
    ensures Migration(t, pl, first, second, dead).value == ReceiptOf(t, pl, first, lines, line, FirstAt(records, line))
  {
    lines := CompleteLines(first.queue.raw).value;
    line := RoleLine(t, first.role).value;
    records := Records(t, first.cursors, lines, dead).value;
  }

  lemma SelectionValidIff(t: Tools, pl: Places, first: Shared, lines: seq<string>, line: int, records: seq<Record>)
    requires 0 <= line <= |lines| && (line == 0 || FirstAt(records, line).Some?)
    ensures var b := ReceiptOf(t, pl, first, lines, line, FirstAt(records, line)).basis;
            SelectedValid(pl, b, records) <==> SelectedNamed(pl, b)
  {
    FirstAtFound(records, line);
  }

  /** What a migration selected is still what its receipt needs, over any longer queue. */
  lemma SelectionStays(t: Tools, pl: Places, first: Shared, second: Shared, more: Bytes, dead: int -> bool, dir: Shared, later: int -> bool)
    requires Migration(t, pl, first, second, dead).Ok?
    requires Grown(first, dir, more) && dir.cursors == first.cursors && CompleteLines(dir.queue.raw).Ok?
    ensures CompleteLines(first.queue.raw).Ok? && CompleteLines(first.queue.raw).value <= CompleteLines(dir.queue.raw).value
    ensures Selects(t, pl, Migration(t, pl, first, second, dead).value.basis, dir, later,
                    AllDead(first.cursors, later) && SelectedNamed(pl, Migration(t, pl, first, second, dead).value.basis))
  {
    var old0, line, records := MigrationParts(t, pl, first, second, dead);
    LinesGrow(first.queue.raw, more, dir.queue.raw);
    RecordsStay(t, first.cursors, old0, CompleteLines(dir.queue.raw).value, dead, later);
    SelectionValidIff(t, pl, first, old0, line, records);
  }

  /** The cursors of `dir` are in order and hold the selection of `b`, exactly if `valid`. */
  ghost predicate Selects(t: Tools, pl: Places, b: Basis, dir: Shared, later: int -> bool, valid: bool)
    requires CompleteLines(dir.queue.raw).Ok?
  {
    var records := Records(t, dir.cursors, CompleteLines(dir.queue.raw).value, later);
    valid <==> records.Ok? && SelectedValid(pl, b, records.value)
  }

  /** The record of each cursor, when all of them are in order. */
  lemma {:induction false} RecordsIff(t: Tools, cursors: seq<Entry>, lines: seq<string>, dead: int -> bool)
    ensures var records := Records(t, cursors, lines, dead);
            && (records.Ok? <==> forall k | 0 <= k < |cursors| :: RecordOf(t, cursors[k], lines, dead).Ok?)
            && (records.Ok? ==> |records.value| == |cursors|)
            && (records.Ok? ==> forall k | 0 <= k < |cursors| :: RecordOf(t, cursors[k], lines, dead) == Ok(records.value[k]))
  {
    if cursors != [] {
      RecordsIff(t, cursors[1..], lines, dead);
      assert forall k | 0 < k < |cursors| :: cursors[k] == cursors[1..][k - 1];
      assert forall k | 0 <= k < |cursors[1..]| :: cursors[1..][k] == cursors[k + 1];
    }
  }

  /** A process cursor is of the Scribe, of the process in its name, which is dead, and holds the
      anchor of its line in the queue. */
  predicate Anchored(t: Tools, e: Entry, lines: seq<string>, dead: int -> bool) {
    && |e.raw| <= 8192 && t.readCursor(e.raw).Some?
    && var c := t.readCursor(e.raw).value;
       && c.role == "scribe" && c.pid == e.pid && e.pid > 1 && dead(e.pid)
       && (c.line == 0 ==> c.anchor == "")
       && (c.line != 0 ==> 1 <= c.line <= |lines| && c.anchor == t.anchor(lines[c.line - 1]))
  }

  predicate AllAnchored(t: Tools, cursors: seq<Entry>, lines: seq<string>, dead: int -> bool) {
    forall k | 0 <= k < |cursors| :: Anchored(t, cursors[k], lines, dead)
  }

  predicate SomeAt(t: Tools, cursors: seq<Entry>, line: int) {
    exists k | 0 <= k < |cursors| :: t.readCursor(cursors[k].raw).Some? && t.readCursor(cursors[k].raw).value.line == line
  }

  /** Read again, the cursors have the same names, lines, anchors and digests. */
  predicate SameCursors(t: Tools, cursors: seq<Entry>, again: seq<Entry>) {
    && |cursors| == |again|
    && forall k | 0 <= k < |cursors| ::
         && cursors[k].path == again[k].path && cursors[k].pid == again[k].pid && t.sha(cursors[k].raw) == t.sha(again[k].raw)
         && t.readCursor(cursors[k].raw) == t.readCursor(again[k].raw)
  }

  lemma RecordsAnchored(t: Tools, cursors: seq<Entry>, lines: seq<string>, dead: int -> bool)
    ensures Records(t, cursors, lines, dead).Ok? <==> AllAnchored(t, cursors, lines, dead)
    ensures Records(t, cursors, lines, dead).Ok? ==>
              var records := Records(t, cursors, lines, dead).value;
              && |records| == |cursors|
              && forall k | 0 <= k < |cursors| ::
                   var c := t.readCursor(cursors[k].raw).value;
                   records[k] == Record(cursors[k].path, cursors[k].pid, c.line, c.anchor, t.sha(cursors[k].raw))
  {
    RecordsIff(t, cursors, lines, dead);
    forall k | 0 <= k < |cursors| ensures RecordOf(t, cursors[k], lines, dead).Ok? <==> Anchored(t, cursors[k], lines, dead) { }
  }

  lemma SameRecordsIff(t: Tools, cursors: seq<Entry>, lines: seq<string>, again: seq<Entry>, more: seq<string>, dead: int -> bool)
    requires AllAnchored(t, cursors, lines, dead) && AllAnchored(t, again, more, dead)
    ensures Records(t, cursors, lines, dead) == Records(t, again, more, dead) <==> SameCursors(t, cursors, again)
  {
    RecordsAnchored(t, cursors, lines, dead);
    RecordsAnchored(t, again, more, dead);
    var a, b := Records(t, cursors, lines, dead).value, Records(t, again, more, dead).value;
    if a == b {
      forall k | 0 <= k < |cursors|
        ensures cursors[k].path == again[k].path && cursors[k].pid == again[k].pid && t.sha(cursors[k].raw) == t.sha(again[k].raw)
        ensures t.readCursor(cursors[k].raw) == t.readCursor(again[k].raw)
      {
        assert a[k] == b[k] && Anchored(t, cursors[k], lines, dead) && Anchored(t, again[k], more, dead);
      }
    }
  }

  /** When there is something to migrate, on two readings of the directory: every cursor is anchored
      in the queue and of a dead Scribe process, one of them is at the line of the role
      checkpoint, unless that is 0, and between the readings the queue only grew and neither
      the checkpoint nor the cursors changed. */
  lemma MigrationIff(t: Tools, pl: Places, first: Shared, second: Shared, dead: int -> bool)
    ensures Migration(t, pl, first, second, dead).Ok? <==>
            && QueueLines(first.queue).Ok? && QueueLines(second.queue).Ok? && RoleLine(t, first.role).Ok?
            && var lines, line := QueueLines(first.queue).value, RoleLine(t, first.role).value;
               && line <= |lines| && AllAnchored(t, first.cursors, lines, dead) && (line == 0 || SomeAt(t, first.cursors, line))
               && second.queue == first.queue.(raw := second.queue.raw) && first.queue.raw <= second.queue.raw
               && second.role == first.role
               && AllAnchored(t, second.cursors, QueueLines(second.queue).value, dead) && SameCursors(t, first.cursors, second.cursors)
  {
    if QueueLines(first.queue).Ok? && QueueLines(second.queue).Ok? && RoleLine(t, first.role).Ok? {
      var lines, more, line := QueueLines(first.queue).value, QueueLines(second.queue).value, RoleLine(t, first.role).value;
      RecordsAnchored(t, first.cursors, lines, dead);
      RecordsAnchored(t, second.cursors, more, dead);
      if AllAnchored(t, first.cursors, lines, dead) {
        SelectedIff(t, first.cursors, lines, dead, line);
        if AllAnchored(t, second.cursors, more, dead) { SameRecordsIff(t, first.cursors, lines, second.cursors, more, dead); }
      }
    }
  }

  lemma SelectedIff(t: Tools, cursors: seq<Entry>, lines: seq<string>, dead: int -> bool, line: int)
    requires AllAnchored(t, cursors, lines, dead)
    ensures Records(t, cursors, lines, dead).Ok? && (FirstAt(Records(t, cursors, lines, dead).value, line).Some? <==> SomeAt(t, cursors, line))
  {
    RecordsAnchored(t, cursors, lines, dead);
    var records := Records(t, cursors, lines, dead).value;
    FirstAtFound(records, line);
    forall k | 0 <= k < |cursors| ensures t.readCursor(cursors[k].raw).Some? && records[k].line == t.readCursor(cursors[k].raw).value.line {
      assert Anchored(t, cursors[k], lines, dead);
    }
    if SomeAt(t, cursors, line) {
      var k :| 0 <= k < |cursors| && t.readCursor(cursors[k].raw).Some? && t.readCursor(cursors[k].raw).value.line == line;
      assert records[k].line == line;
    }
  }

  /** Among these cursors is the selected one, with the bytes it had and at the migrated line. */
  predicate Holds(t: Tools, b: Basis, cursors: seq<Entry>) {
    b.selected.Some? ==>
      exists k | 0 <= k < |cursors| ::
        && cursors[k].path == b.selected.value.path && cursors[k].pid == b.selected.value.pid
        && t.sha(cursors[k].raw) == b.selected.value.sha
        && t.readCursor(cursors[k].raw).Some? && t.readCursor(cursors[k].raw).value.line == b.line
  }

  /** Every cursor there now, old, changed or new, is well formed, anchored in the queue and of
      no live process, the selected one is among them, and it has the name that is rebuilt from
      its process id. */
  predicate CursorsHold(t: Tools, pl: Places, b: Basis, cursors: seq<Entry>, lines: seq<string>, dead: int -> bool) {
    && AllAnchored(t, cursors, lines, dead)
    && Holds(t, b, cursors) && SelectedNamed(pl, b)
  }

  lemma HoldsIff(t: Tools, pl: Places, b: Basis, cursors: seq<Entry>, lines: seq<string>, dead: int -> bool)
    requires Records(t, cursors, lines, dead).Ok? && (b.selected.None? ==> b.line == 0)
    ensures SelectedValid(pl, b, Records(t, cursors, lines, dead).value) <==> Holds(t, b, cursors) && SelectedNamed(pl, b)
  {
    var records := Records(t, cursors, lines, dead).value;
    RecordsIff(t, cursors, lines, dead);
    if b.selected.Some? {
      var s := b.selected.value;
      forall k | 0 <= k < |cursors|
        ensures records[k].path == cursors[k].path && records[k].pid == cursors[k].pid && records[k].sha == t.sha(cursors[k].raw)
        ensures t.readCursor(cursors[k].raw).Some? && records[k].line == t.readCursor(cursors[k].raw).value.line
      {
        assert RecordOf(t, cursors[k], lines, dead) == Ok(records[k]);
      }
    }
  }

  /** Completeness, exactly: while the role checkpoint stays as it was and the queue only gains
      bytes, whatever became of the process cursors, the receipt is accepted if and only if the
      queue is within its size limit, ends in whole UTF-8 records and holds the target line, and
      the cursors there now are in order and hold the selected one. */
  lemma GrownQueueVerifiesIff(t: Tools, pl: Places, first: Shared, second: Shared, dead: int -> bool, dir: Shared, later: int -> bool,
                              more: Bytes, target: int)
    requires Migration(t, pl, first, second, dead).Ok? && Grown(first, dir, more)
    ensures var receipt := Migration(t, pl, first, second, dead).value;
            var verified := Verify(t, pl, State(Some(target), Some(receipt)), dir, later);
            && (verified.Ok? <==>
                && |first.queue.raw + more| <= MAX_QUEUE && CompleteLines(more).Ok? && CompleteLines(dir.queue.raw).Ok?
                && receipt.basis.line <= target <= |CompleteLines(first.queue.raw).value| + |CompleteLines(more).value|
                && CursorsHold(t, pl, receipt.basis, dir.cursors, CompleteLines(dir.queue.raw).value, later))
            && (verified.Ok? ==> verified == Ok(receipt))
  {
    var lines, line, records := MigrationParts(t, pl, first, second, dead);
    var b := Migration(t, pl, first, second, dead).value.basis;
    MoreIsWholeIff(first.queue.raw, more, dir.queue.raw);
    var whole := CompleteLines(dir.queue.raw);
    var valid := whole.Ok? && CursorsHold(t, pl, b, dir.cursors, whole.value, later);
    if whole.Ok? {
      LinesGrow(first.queue.raw, more, dir.queue.raw);
      RecordsIff(t, dir.cursors, whole.value, later);
      if Records(t, dir.cursors, whole.value, later).Ok? { HoldsIff(t, pl, b, dir.cursors, whole.value, later); }
    }
    ReceiptVerifiesIff(t, pl, first, lines, line, FirstAt(records, line), dir, later, more, target, valid);
  }

  /** Cursors that are as they were are in order and hold the selected one exactly while none of
      their process ids is in use again and the selected name is the rebuilt one. */
  lemma SameCursorsHoldIff(t: Tools, pl: Places, first: Shared, second: Shared, dead: int -> bool, dir: Shared, later: int -> bool, more: Bytes)
    requires Migration(t, pl, first, second, dead).Ok? && Grown(first, dir, more) && dir.cursors == first.cursors
    requires CompleteLines(dir.queue.raw).Ok?
    ensures var b := Migration(t, pl, first, second, dead).value.basis;
            CursorsHold(t, pl, b, dir.cursors, CompleteLines(dir.queue.raw).value, later) <==> AllDead(first.cursors, later) && SelectedNamed(pl, b)
  {
    var b, lines := Migration(t, pl, first, second, dead).value.basis, CompleteLines(dir.queue.raw).value;
    var old0, line, records := MigrationParts(t, pl, first, second, dead);
    SelectionStays(t, pl, first, second, more, dead, dir, later);
    RecordsIff(t, dir.cursors, lines, later);
    if Records(t, dir.cursors, lines, later).Ok? { HoldsIff(t, pl, b, dir.cursors, lines, later); }
  }

  /** The same, for a receipt whose selection is known to be valid, or known not to be. */
  lemma ReceiptVerifiesIff(t: Tools, pl: Places, first: Shared, lines: seq<string>, line: int, selected: Option<Record>,
                           dir: Shared, later: int -> bool, more: Bytes, target: int, valid: bool)
    requires CompleteLines(first.queue.raw) == Ok(lines) && RoleLine(t, first.role) == Ok(line) && 0 <= line <= |lines|
    requires Grown(first, dir, more)
    requires CompleteLines(dir.queue.raw).Ok? ==>
               && lines <= CompleteLines(dir.queue.raw).value
               && Selects(t, pl, ReceiptOf(t, pl, first, lines, line, selected).basis, dir, later, valid)
    ensures var receipt := ReceiptOf(t, pl, first, lines, line, selected);
            Verify(t, pl, State(Some(target), Some(receipt)), dir, later) ==
            if && |first.queue.raw + more| <= MAX_QUEUE && CompleteLines(more).Ok? && valid
               && line <= target <= |lines| + |CompleteLines(more).value|
            then Ok(receipt) else Refused
  {
    var whole := CompleteLines(dir.queue.raw);
    MoreIsWholeIff(first.queue.raw, more, dir.queue.raw);
    if whole.Ok? && |dir.queue.raw| <= MAX_QUEUE {
      WholeQueueVerifiesIff(t, pl, first, lines, line, selected, dir, later, more, target, whole.value);
    } else {
      TornQueueRefused(t, pl, State(Some(target), Some(ReceiptOf(t, pl, first, lines, line, selected))), dir, later);
    }
  }

  lemma TornQueueRefused(t: Tools, pl: Places, st: State, dir: Shared, later: int -> bool)
    requires QueueLines(dir.queue).Refused?
    ensures Verify(t, pl, st, dir, later).Refused?
  {
  }

  lemma WholeQueueVerifiesIff(t: Tools, pl: Places, first: Shared, lines: seq<string>, line: int, selected: Option<Record>,
                              dir: Shared, later: int -> bool, more: Bytes, target: int, whole: seq<string>)
    requires CompleteLines(first.queue.raw) == Ok(lines) && RoleLine(t, first.role) == Ok(line) && 0 <= line <= |lines|
    requires Grown(first, dir, more) && QueueLines(dir.queue) == Ok(whole) && lines <= whole
    ensures var receipt := ReceiptOf(t, pl, first, lines, line, selected);
            var records := Records(t, dir.cursors, whole, later);
            Verify(t, pl, State(Some(target), Some(receipt)), dir, later) ==
            if records.Ok? && SelectedValid(pl, receipt.basis, records.value) && line <= target <= |whole| then Ok(receipt) else Refused
  {
    assert dir.queue.raw[..|first.queue.raw|] == first.queue.raw;
  }

  lemma MoreIsWholeIff(old0: Bytes, more: Bytes, now: Bytes)
    requires CompleteLines(old0).Ok? && now == old0 + more
    ensures CompleteLines(now).Ok? <==> CompleteLines(more).Ok?
    ensures CompleteLines(now).Ok? ==> |CompleteLines(now).value| == |CompleteLines(old0).value| + |CompleteLines(more).value|
  {
    if more != [] { assert now[|now| - 1] == more[|more| - 1]; } else { assert now == old0; }
    DecodeAppended(old0, more, now);
    if CompleteLines(now).Ok? {
      WholeIffNewline(old0);
      LinesAppended(Decode(old0).value, Decode(more).value, Decode(now).value);
    }
  }

  ghost predicate Injective(sha: Bytes -> string) {
    forall x: Bytes, y: Bytes :: sha(x) == sha(y) ==> x == y
  }

  /** What a verification has checked of the queue, the checkpoint and the target. */
  lemma VerifyParts(t: Tools, pl: Places, st: State, dir: Shared, later: int -> bool)
    requires Verify(t, pl, st, dir, later).Ok?
    ensures st.receipt.Some? && st.target.Some? && CompleteLines(dir.queue.raw).Ok?
    ensures var b := st.receipt.value.basis;
            && |dir.queue.raw| >= b.size && t.sha(dir.queue.raw[..b.size]) == b.queueSha && t.sha(dir.role) == b.roleSha
            && b.line <= st.target.value <= |CompleteLines(dir.queue.raw).value|
            && dir.queue.device == b.device && dir.queue.inode == b.inode
            && Records(t, dir.cursors, CompleteLines(dir.queue.raw).value, later).Ok?
            && SelectedValid(pl, b, Records(t, dir.cursors, CompleteLines(dir.queue.raw).value, later).value)
  {
  }

  /** Soundness: whatever directory the receipt of a migration is accepted in, that queue is the
      same file and begins with the queue migrated from, no line up to the migrated one is lost
      or moved, the role checkpoint is the same, the cursors are anchored and hold the selected
      one, and the target lies between the migrated line and the end of the queue. */
  lemma AcceptedMeansPrefix(t: Tools, pl: Places, first: Shared, second: Shared, dead: int -> bool, st: State, dir: Shared, later: int -> bool)
    requires Injective(t.sha) && Migration(t, pl, first, second, dead).Ok?
    requires st.receipt == Some(Migration(t, pl, first, second, dead).value) && Verify(t, pl, st, dir, later).Ok?
    ensures var b := st.receipt.value.basis;
            && first.queue.raw <= dir.queue.raw && dir.role == first.role
            && dir.queue.device == first.queue.device && dir.queue.inode == first.queue.inode
            && CompleteLines(first.queue.raw).Ok? && CompleteLines(dir.queue.raw).Ok?
            && CompleteLines(first.queue.raw).value <= CompleteLines(dir.queue.raw).value
            && b.line <= st.target.value <= |CompleteLines(dir.queue.raw).value|
            && b.line <= |CompleteLines(first.queue.raw).value|
            && CursorsHold(t, pl, b, dir.cursors, CompleteLines(dir.queue.raw).value, later)
  {
    var old0, line, records := MigrationParts(t, pl, first, second, dead);
    var size := |first.queue.raw|;
    VerifyParts(t, pl, st, dir, later);
    assert dir.queue.raw[..size] == first.queue.raw;
    assert dir.queue.raw == first.queue.raw + dir.queue.raw[size..];
    LinesGrow(first.queue.raw, dir.queue.raw[size..], dir.queue.raw);
    HoldsIff(t, pl, st.receipt.value.basis, dir.cursors, CompleteLines(dir.queue.raw).value, later);
    RecordsAnchored(t, dir.cursors, CompleteLines(dir.queue.raw).value, later);
  }

  /** A migration that dies between its two writes has written the line of the role checkpoint and
      is a dead end: from then on neither another migration nor a verification succeeds. */
  lemma TornMigrationDeadEnds(t: Tools, pl: Places, st: State, first: Shared, second: Shared, dead: int -> bool,
                              a: Shared, b: Shared, later: int -> bool, fuel: nat)
    requires Migrate(t, pl, st, first, second, dead, 1).1.Crashed?
    ensures var torn := Migrate(t, pl, st, first, second, dead, 1).0;
            && Migrate(t, pl, torn, a, b, later, fuel) == (torn, Declined) && Verify(t, pl, torn, a, later).Refused?
            && torn.receipt.None? && torn.target.Some? && RoleLine(t, first.role) == Ok(torn.target.value)
  {
  }

  /** A migration that completes has written the line of the role checkpoint, and is accepted at
      once, over the queue as last read, exactly if its selected cursor has the name that is
      rebuilt from its process id. */
  lemma MigratedVerifiesIff(t: Tools, pl: Places, st: State, first: Shared, second: Shared, dead: int -> bool)
    requires Migrate(t, pl, st, first, second, dead, 2).1.Migrated?
    ensures var r := Migrate(t, pl, st, first, second, dead, 2);
            && Verify(t, pl, r.0, second, dead) == (if SelectedNamed(pl, r.1.receipt.basis) then Ok(r.1.receipt) else Refused)
            && r.0.receipt == Some(r.1.receipt) && r.0.target == Some(r.1.receipt.basis.line)
            && RoleLine(t, first.role) == Ok(r.1.receipt.basis.line)
  {
    var lines, line, records := MigrationParts(t, pl, first, second, dead);
    var receipt := Migration(t, pl, first, second, dead).value;
    var more := second.queue.raw[|first.queue.raw|..];
    assert second.queue.raw == first.queue.raw + more;
    MoreIsWholeIff(first.queue.raw, more, second.queue.raw);
    LinesGrow(first.queue.raw, more, second.queue.raw);
    SelectionValidIff(t, pl, first, lines, line, records);
    ReceiptVerifiesIff(t, pl, first, lines, line, FirstAt(records, line), second, dead, more, line, SelectedNamed(pl, receipt.basis));
  }

  /** A cursor file whose name writes its process id in another way (with a leading zero, say)
      is migrated from, and leaves a dead end: no later verification accepts the receipt, and
      no later migration starts. */
  lemma MisnamedCursorDeadEnds(t: Tools, pl: Places, st: State, first: Shared, second: Shared, dead: int -> bool, steps: nat,
                               target: int, a: Shared, b: Shared, later: int -> bool, fuel: nat)
    requires steps >= 2 && Migrate(t, pl, st, first, second, dead, steps).1.Migrated?
    requires !SelectedNamed(pl, Migrate(t, pl, st, first, second, dead, steps).1.receipt.basis)
    ensures var done := Migrate(t, pl, st, first, second, dead, steps).0;
            && Verify(t, pl, done.(target := Some(target)), a, later).Refused?
            && Migrate(t, pl, done, a, b, later, fuel) == (done, Declined)
  {
    var done := Migrate(t, pl, st, first, second, dead, steps).0;
    MisnamedNeverVerifies(t, pl, done.(target := Some(target)), a, later);
  }

  lemma MisnamedNeverVerifies(t: Tools, pl: Places, st: State, dir: Shared, later: int -> bool)
    requires st.receipt.Some? && !SelectedNamed(pl, st.receipt.value.basis)
    ensures Verify(t, pl, st, dir, later).Refused?
  {
  }

  /** Records already found, then the result for the rest of the directory. */
  function Then(found: seq<Record>, rest: Result<seq<Record>>): Result<seq<Record>> {
    match rest case Refused => Refused case Ok(records) => Ok(found + records)
  }

  lemma ThenThen(found: seq<Record>, record: Record, rest: Result<seq<Record>>)
    ensures Then(found, Then([record], rest)) == Then(found + [record], rest)
  {
    if rest.Ok? { assert found + ([record] + rest.value) == (found + [record]) + rest.value; }
  }

  // ------------------------------------------------------------------- the class

  class StateDir {
    const t: Tools
    const pl: Places
    var target: Option<int>
    var receipt: Option<Receipt>

    constructor (t: Tools, pl: Places)
      ensures this.t == t && this.pl == pl && target == None && receipt == None
    {
      this.t, this.pl, target, receipt := t, pl, None, None;
    }

    method LegacyCursorRecords(cursors: seq<Entry>, lines: seq<string>, dead: int -> bool) returns (records: Result<seq<Record>>)
      ensures records == Records(t, cursors, lines, dead)
    {
      var found: seq<Record> := [];
      ghost var all := Records(t, cursors, lines, dead);
      assert cursors[0..] == cursors;
      if all.Ok? { assert [] + all.value == all.value; }
      for k := 0 to |cursors|
        invariant Records(t, cursors, lines, dead) == Then(found, Records(t, cursors[k..], lines, dead))
      {
        assert cursors[k..][1..] == cursors[k + 1..];
        var record := RecordOf(t, cursors[k], lines, dead);
        if record.Refused? { return Refused; }
        ThenThen(found, record.value, Records(t, cursors[k + 1..], lines, dead));
        found := found + [record.value];
      }
      assert found + [] == found;
      return Ok(found);
    }

    method MigrateLegacyCursor(first: Shared, second: Shared, dead: int -> bool, steps: nat) returns (end: Ended)
      modifies this
      ensures (State(target, receipt), end) == Migrate(t, pl, State(old(target), old(receipt)), first, second, dead, steps)
    {
      if target.Some? || receipt.Some? { return Declined; }
      var lines := QueueLines(first.queue);
      var line := RoleLine(t, first.role);
      if lines.Refused? || line.Refused? || line.value > |lines.value| { return Declined; }
      var records := LegacyCursorRecords(first.cursors, lines.value, dead);
      if records.Refused? { return Declined; }
      var selected := FirstAt(records.value, line.value);
      if line.value > 0 && selected.None? { return Declined; }
      var after := QueueLines(second.queue);
      var again := RoleLine(t, second.role);
      if after.Refused? || again.Refused? { return Declined; }
      var recordsAgain := LegacyCursorRecords(second.cursors, after.value, dead);
      if recordsAgain.Refused? || second.queue.device != first.queue.device || second.queue.inode != first.queue.inode
         || !(first.queue.raw <= second.queue.raw) || again != line || second.role != first.role || recordsAgain != records {
        return Declined;
      }
      var written := ReceiptOf(t, pl, first, lines.value, line.value, selected);
      if steps == 0 { return Crashed; }
      target := Some(line.value);
      if steps == 1 { return Crashed; }
      receipt := Some(written);
      return Migrated(written);
    }
  }
}
