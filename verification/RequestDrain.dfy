/** The drain of the open-request log into the ledger: what a line asks for, what becomes of it
    on a ledger that fails or is spoiled, and what a tick does with a line-and-anchor cursor. */
module RequestDrain {
  import opened Outcome
  import opened TextLines
  import opened HandoffLedger
  import opened RequestLog
  import opened Utf8

  // ------------------------------------------------------------------ requests

  /** What a request says about its deadline: nothing or a falsy value; a whole number of
      seconds; a fraction or a numeral, as microseconds, where NaN and the infinities stand
      where the clamp takes them; or something that is no number. */
  datatype Declared = Missing | Whole(seconds: int) | Fraction(micros: int) | NotNumber

  /** Whether a request holds a lone surrogate, which JSON can escape and UTF-8 cannot write. */
  datatype Surrogates = Absent | InTexts | InId

  /** What a log line parses to; empty strings stand for missing or falsy values. A line is
      unreadable when the parser raises anything but a decoding error: a numeral with too many
      digits, or too deep a nesting. */
  datatype Parsed =
    | NotJson
    | NotObject
    | Unreadable
    | Request(sendId: string, openedAt: string, from: string, owner: string, action: string, artifact: string,
              declared: Declared, surrogates: Surrogates)

  /** What the drain finds in a line: a row to open; a row that cannot be written, of an id
      that no row has if it cannot be written itself; bad data; a deadline past the calendar; or
      an error that nobody catches. */
  datatype Want = Asks(row: Row) | Unwritable(id: Option<string>) | Rejected | Undated | Raises

  const PLACEHOLDER := "handoff acknowledged + drained"
  const OWNERS := {"ccto", "ccpo", "ccro", "ccfo", "ccmo", "cclo", "ccgo", "ccco", "ccde", "cos", "scribe", "utility"}

  const TWO_194 := 0x4_0000_0000_0000_0000_0000_0000_0000_0000_0000_0000_0000_0000

  /** Whole numbers from here on, and from its negative down, have no double: it is half a step
      above the largest one, 2 to the 1024th less 2 to the 970th. */
  const FLOAT_LIMIT := 0x3F_FFFF_FFFF_FFFF * (TWO_194 * TWO_194 * TWO_194 * TWO_194 * TWO_194)

  function Or(text: string, other: string): string {
    if text == "" then other else text
  }

  /** A role, or a role, a dash and digits. */
  predicate IsKnownOwner(w: Words, owner: string) {
    var o := w.lower(Strip(owner));
    || o in OWNERS
    || exists k | 0 <= k < |o| ::
         && o[k] == '-' && o[..k] in OWNERS && k + 1 < |o|
         && forall j | k < j < |o| :: o[j] != '-' && w.digit(o[j])
  }

  function SendRow(sendId: string): string {
    "send-" + sendId
  }

  function Lasting(declared: Declared): int {
    match declared
    case Missing => DEADLINE_DEFAULT
    case Whole(seconds) => seconds * SECOND
    case Fraction(micros) => micros
    case NotNumber => DEADLINE_DEFAULT
  }

  /** Whether the declared number is too large to become a float. */
  predicate Overflows(declared: Declared) {
    declared.Whole? && (declared.seconds >= FLOAT_LIMIT || declared.seconds <= -FLOAT_LIMIT)
  }

  /** The row a request asks for, or what becomes of the request. */
  function EntryOf(w: Words, r: Parsed): Want
    requires r.Request?
  {
    var artifact := Strip(r.artifact);
    if artifact == "" || w.lower(artifact) == PLACEHOLDER then Rejected
    else if !IsKnownOwner(w, Or(r.owner, "unknown")) || w.time(r.openedAt).None? then Rejected
    else if !w.dated(r.openedAt, Clamp(Lasting(r.declared))) then Undated
    else match NewHandoff(w, SendRow(r.sendId), Or(r.from, "unknown"), Or(r.owner, "unknown"), Or(r.action, "task handoff"),
                          artifact, r.openedAt, Lasting(r.declared))
         case Refused => Rejected
         case Ok(row) => (match r.surrogates
                          case Absent => Asks(row)
                          case InTexts => Unwritable(Some(row.id))
                          case InId => Unwritable(None))
  }

  function Wanted(parse: string -> Parsed, w: Words, line: string): Want {
    match parse(line)
    case NotJson => Rejected
    case NotObject => Rejected
    case Unreadable => Raises
    case r => if r.sendId == "" || r.openedAt == "" then Rejected
              else if Overflows(r.declared) then Raises
              else EntryOf(w, r)
  }

  // ------------------------------------------------- what the log is found to ask for

  /** How long after its opening a request wants its row to be due, as far as the ledger allows. */
  function Lifetime(declared: Declared): int {
    var asked := match declared
                 case Whole(seconds) => seconds * 1_000_000
                 case Fraction(micros) => micros
                 case _ => 7_200_000_000;
    if asked < 360_000_000 then 360_000_000 else if asked > 14_400_000_000 then 14_400_000_000 else asked
  }

  /** The row is the one of this request, field by field. */
  predicate RowFor(w: Words, r: Parsed, row: Row) {
    && r.Request? && w.time(r.openedAt).Some?
    && row.id == "send-" + r.sendId
    && row.from == (if r.from == "" then "unknown" else r.from)
    && row.owner == (if r.owner == "" then "unknown" else r.owner)
    && row.action == (if r.action == "" then "task handoff" else r.action)
    && row.artifact == Strip(r.artifact) && row.openedAt == r.openedAt
    && row.deadline == w.time(r.openedAt).value + Lifetime(r.declared)
    && row.status == Open && row.closed == row.evidence == row.note == ""
  }

  /** The request has an id and a time, declares an artifact of its own, and goes to a known owner. */
  predicate Addressed(w: Words, r: Parsed) {
    && r.Request? && r.sendId != "" && r.openedAt != "" && w.time(r.openedAt).Some?
    && Strip(r.artifact) != "" && w.lower(Strip(r.artifact)) != "handoff acknowledged + drained"
    && IsKnownOwner(w, if r.owner == "" then "unknown" else r.owner)
  }

  /** A whole number of seconds that it declares has a float. */
  predicate Floats(r: Parsed) {
    r.Request? && (r.declared.Whole? ==> -FLOAT_LIMIT < r.declared.seconds < FLOAT_LIMIT)
  }

  /** And its deadline is a date. */
  predicate Datable(w: Words, r: Parsed) {
    Floats(r) && w.dated(r.openedAt, Lifetime(r.declared))
  }

  /** None of its texts is there and blank. */
  predicate Spoken(r: Parsed) {
    && r.Request? && !Blank(r.openedAt)
    && (r.from == "" || !Blank(r.from)) && (r.owner == "" || !Blank(r.owner)) && (r.action == "" || !Blank(r.action))
  }

  lemma LifetimeIs(declared: Declared)
    ensures Clamp(Lasting(declared)) == Lifetime(declared)
  {
  }

  lemma {:induction false} StrippedNotBlank(s: string)
    ensures Blank(Strip(s)) <==> Strip(s) == ""
    decreases |s|
  {
    if s != "" {
      if IsSpace(s[0]) { StrippedNotBlank(s[1..]); }
      else if IsSpace(s[|s| - 1]) { StrippedNotBlank(s[..|s| - 1]); }
      else { assert s[0] in s; }
    }
  }

  lemma HandoffIff(w: Words, id: string, from: string, owner: string, action: string, artifact: string, openedAt: string,
                   lasting: int, row: Row)
    ensures NewHandoff(w, id, from, owner, action, artifact, openedAt, lasting) == Ok(row) <==>
            && !Blank(id) && !Blank(from) && !Blank(owner) && !Blank(action) && !Blank(artifact) && !Blank(openedAt)
            && w.time(openedAt).Some?
            && row == Row(id, from, owner, action, artifact, openedAt, w.time(openedAt).value + Clamp(lasting), Open, "", "", "")
  {
  }

  lemma NotBlank(id: string, c: char)
    requires c in id && !IsSpace(c)
    ensures !Blank(id)
  {
  }

  lemma EntryIff(w: Words, r: Parsed, row: Row)
    requires r.Request? && r.sendId != "" && r.openedAt != "" && Floats(r)
    ensures EntryOf(w, r) == Asks(row) <==> Addressed(w, r) && Datable(w, r) && Spoken(r) && r.surrogates == Absent && RowFor(w, r, row)
    ensures EntryOf(w, r) == Undated <==> Addressed(w, r) && !Datable(w, r)
    ensures EntryOf(w, r).Unwritable? <==> Addressed(w, r) && Datable(w, r) && Spoken(r) && r.surrogates != Absent
    ensures EntryOf(w, r).Unwritable? ==> EntryOf(w, r).id == if r.surrogates == InTexts then Some("send-" + r.sendId) else None
    ensures EntryOf(w, r) != Raises
  {
    LifetimeIs(r.declared);
    HandoffFor(w, r, row, NewHandoff(w, SendRow(r.sendId), Or(r.from, "unknown"), Or(r.owner, "unknown"), Or(r.action, "task handoff"),
                                     Strip(r.artifact), r.openedAt, Lasting(r.declared)));
  }

  /** What a request's row comes to, when it is addressed and datable. */
  lemma HandoffFor(w: Words, r: Parsed, row: Row, found: Result<Row>)
    requires r.Request?
    requires found == NewHandoff(w, SendRow(r.sendId), Or(r.from, "unknown"), Or(r.owner, "unknown"), Or(r.action, "task handoff"),
                                 Strip(r.artifact), r.openedAt, Lasting(r.declared))
    ensures found == Ok(row) <==> Spoken(r) && Strip(r.artifact) != "" && RowFor(w, r, row)
    ensures found.Ok? <==> Spoken(r) && Strip(r.artifact) != "" && w.time(r.openedAt).Some?
    ensures found.Ok? ==> found.value.id == "send-" + r.sendId
  {
    LifetimeIs(r.declared);
    StrippedNotBlank(r.artifact);
    NotBlank("send-" + r.sendId, 's');
    NotBlank("unknown", 'u');
    NotBlank("task handoff", 't');
    HandoffIff(w, SendRow(r.sendId), Or(r.from, "unknown"), Or(r.owner, "unknown"), Or(r.action, "task handoff"),
               Strip(r.artifact), r.openedAt, Lasting(r.declared), row);
    if found.Ok? {
      HandoffIff(w, SendRow(r.sendId), Or(r.from, "unknown"), Or(r.owner, "unknown"), Or(r.action, "task handoff"),
                 Strip(r.artifact), r.openedAt, Lasting(r.declared), found.value);
    }
  }

  /** A line asks for a row exactly when it is a request that is addressed, datable, not blank
      anywhere and free of surrogates, and then for the row of that request. */
  lemma AsksIff(parse: string -> Parsed, w: Words, line: string, row: Row)
    ensures Wanted(parse, w, line) == Asks(row) <==>
            var r := parse(line);
            Addressed(w, r) && Datable(w, r) && Spoken(r) && r.surrogates == Absent && RowFor(w, r, row)
  {
    var r := parse(line);
    if r.Request? && r.sendId != "" && r.openedAt != "" && Floats(r) { EntryIff(w, r, row); }
  }

  /** Exactly which of the other lines raise, wait for ever for a date, or cannot be written; the rest
      is bad data. */
  lemma OtherLinesIff(parse: string -> Parsed, w: Words, line: string)
    ensures var r := parse(line);
            var wanted := Wanted(parse, w, line);
            && (wanted == Raises <==> r.Unreadable? || (r.Request? && r.sendId != "" && r.openedAt != "" && !Floats(r)))
            && (wanted == Undated <==> Addressed(w, r) && Floats(r) && !Datable(w, r))
            && (wanted.Unwritable? <==> Addressed(w, r) && Datable(w, r) && Spoken(r) && r.surrogates != Absent)
            && (wanted.Unwritable? ==> wanted.id == if r.surrogates == InTexts then Some("send-" + r.sendId) else None)
  {
    var r := parse(line);
    if r.Request? && r.sendId != "" && r.openedAt != "" && Floats(r) {
      EntryIff(w, r, Row("", "", "", "", "", "", 0, Open, "", "", ""));
    }
  }

  /** What the drain relies on: what it finds in each line, and the anchor of a line. */
  datatype Tools = Tools(words: Words, wanted: string -> Want, anchor: string -> string)

  function ToolsOf(parse: string -> Parsed, w: Words, anchor: string -> string): Tools {
    Tools(w, line => Wanted(parse, w, line), anchor)
  }

  /** An open row that the ledger takes as it is, with a bounded deadline and no canary's id. */
  predicate Openable(w: Words, row: Row) {
    Validate(w, row) == Ok(row) && DeadlineBounded(w, row) && row.status == Open && row.closed == "" && !(CANARY <= row.id)
  }

  ghost predicate ValidTools(t: Tools) {
    forall line :: t.wanted(line).Asks? ==> Openable(t.words, t.wanted(line).row)
  }

  lemma NewHandoffIsValid(w: Words, id: string, from: string, owner: string, action: string, artifact: string,
                          openedAt: string, lasting: int)
    requires NewHandoff(w, id, from, owner, action, artifact, openedAt, lasting).Ok?
    ensures var row := NewHandoff(w, id, from, owner, action, artifact, openedAt, lasting).value;
            Validate(w, row) == Ok(row) && DeadlineBounded(w, row) && row.status == Open && row.closed == "" && row.id == id
  {
  }

  lemma SendIsNoCanary(sendId: string)
    ensures !(CANARY <= SendRow(sendId))
  {
    assert SendRow(sendId)[0] == 's' && CANARY[0] == '_';
  }

  /** Whatever the log holds, and however it is parsed, the rows it asks for are those of its
      requests, and openable. */
  lemma ToolsAreValid(parse: string -> Parsed, w: Words, anchor: string -> string)
    ensures ValidTools(ToolsOf(parse, w, anchor))
    ensures forall line | Wanted(parse, w, line).Asks? :: RowFor(w, parse(line), Wanted(parse, w, line).row)
  {
    forall line | Wanted(parse, w, line).Asks? ensures RowFor(w, parse(line), Wanted(parse, w, line).row) {
      AsksIff(parse, w, line, Wanted(parse, w, line).row);
    }
    forall line | Wanted(parse, w, line).Asks? ensures Openable(w, Wanted(parse, w, line).row) {
      var r := parse(line);
      NewHandoffIsValid(w, SendRow(r.sendId), Or(r.from, "unknown"), Or(r.owner, "unknown"), Or(r.action, "task handoff"),
                        Strip(r.artifact), r.openedAt, Lasting(r.declared));
      SendIsNoCanary(r.sendId);
    }
  }

  // -------------------------------------------------------------------- the drain

  datatype Cursor = Cursor(line: nat, anchor: string)

  /** What becomes of a line in a tick: it is passed, with or without a new row; it is held for
      the next tick; or its error ends the tick. */
  datatype Fate = Passed | Held | Ended

  /** What an append comes to that gets as far as the write, and cannot be written. */
  function Unwritten(items: seq<Item>, id: Option<string>): Did {
    if !Readable(items) then Unread(items)
    else if id.None? then if HasStray(items) then Failed else Bad
    else
      var k := Seek(items, id.value, None);
      if k == |items| then Bad else if items[k].Stray? then Failed else Kept
  }

  /** A row opened, one that was open, and bad data are passed; another error is held. `up`
      says whether the lock and the disk work when the line needs them. */
  function FateOf(t: Tools, items: seq<Item>, line: string, up: bool): Fate {
    match t.wanted(line)
    case Raises => Ended
    case Undated => Held
    case Rejected => Passed
    case Asks(row) => if !up || Append(t.words, items, row).Failed? then Held else Passed
    case Unwritable(id) => if !up || Unwritten(items, id).Failed? then Held else Passed
  }

  /** The ledger is such that adding a row of this id is an error that nobody takes for bad data:
      its parser raises one, or nothing, and a stray value stands before any row of that id. */
  ghost predicate Chokes(items: seq<Item>, id: Option<string>) {
    || (exists k | 0 <= k < |items| :: items[k] == Poison(OtherError) && forall j | 0 <= j < k :: !items[j].Poison?)
    || (&& (forall k | 0 <= k < |items| :: !items[k].Poison?)
        && exists k | 0 <= k < |items| :: items[k].Stray? && forall j | 0 <= j < k && items[j].Entry? :: Some(items[j].row.id) != id)
  }

  lemma {:induction false} FirstErrorAt(items: seq<Item>)
    requires !Readable(items)
    ensures exists k | 0 <= k < |items| :: items[k] == Poison(FirstError(items)) && forall j | 0 <= j < k :: !items[j].Poison?
  {
    if items[0].Poison? {
      assert items[0] == Poison(FirstError(items));
    } else {
      assert !Readable(items[1..]) by {
        var item :| item in items && item.Poison?;
        assert item in items[1..];
      }
      FirstErrorAt(items[1..]);
      var k :| 0 <= k < |items[1..]| && items[1..][k] == Poison(FirstError(items[1..])) && forall j | 0 <= j < k :: !items[1..][j].Poison?;
      assert items[k + 1] == Poison(FirstError(items));
      forall j | 0 <= j < k + 1 ensures !items[j].Poison? { assert j > 0 ==> items[j] == items[1..][j - 1]; }
    }
  }

  lemma UnreadIff(items: seq<Item>)
    requires !Readable(items)
    ensures Unread(items).Failed? <==>
            exists k | 0 <= k < |items| :: items[k] == Poison(OtherError) && forall j | 0 <= j < k :: !items[j].Poison?
  {
    FirstErrorAt(items);
    var f :| 0 <= f < |items| && items[f] == Poison(FirstError(items)) && forall j | 0 <= j < f :: !items[j].Poison?;
    assert forall k | 0 <= k < |items| && items[k].Poison? && k != f :: k > f;
  }

  lemma SeekStops(items: seq<Item>, id: string)
    ensures var k := Seek(items, id, None);
            (k < |items| && items[k].Stray?) <==>
            exists k | 0 <= k < |items| :: items[k].Stray? && forall j | 0 <= j < k && items[j].Entry? :: Some(items[j].row.id) != Some(id)
  {
    var k := Seek(items, id, None);
    if k < |items| && items[k].Stray? {
      assert forall j | 0 <= j < k && items[j].Entry? :: !Ends(items[j], id, None);
    }
    if exists n | 0 <= n < |items| :: items[n].Stray? && forall j | 0 <= j < n && items[j].Entry? :: Some(items[j].row.id) != Some(id) {
      var n :| 0 <= n < |items| && items[n].Stray? && forall j | 0 <= j < n && items[j].Entry? :: Some(items[j].row.id) != Some(id);
      assert Ends(items[n], id, None);
    }
  }

  lemma AppendFailsIff(w: Words, items: seq<Item>, row: Row)
    requires Validate(w, row) == Ok(row)
    ensures Append(w, items, row).Failed? <==> Chokes(items, Some(row.id))
  {
    if Readable(items) { SeekStops(items, row.id); } else { UnreadIff(items); }
  }

  lemma UnwrittenFailsIff(items: seq<Item>, id: Option<string>)
    ensures Unwritten(items, id).Failed? <==> Chokes(items, id)
  {
    if !Readable(items) { UnreadIff(items); }
    else if id.Some? { SeekStops(items, id.value); }
    else { NoIdStray(items); }
  }

  lemma NoIdStray(items: seq<Item>)
    ensures HasStray(items) <==>
            exists k | 0 <= k < |items| :: items[k].Stray? && forall j | 0 <= j < k && items[j].Entry? :: Some(items[j].row.id) != None
  {
    if HasStray(items) {
      var item :| item in items && item.Stray?;
      var k :| 0 <= k < |items| && items[k] == item;
      assert items[k].Stray? && forall j | 0 <= j < k && items[j].Entry? :: Some(items[j].row.id) != None;
    }
  }

  /** When the drain goes past a line, keeps it for the next tick, or dies: an error that nobody
      catches ends the tick; a date past the calendar is held, and so is a row that lock or disk
      or the ledger itself keep out; all else is passed, bad data included. */
  lemma FateIff(t: Tools, items: seq<Item>, line: string, up: bool)
    requires ValidTools(t)
    ensures var wanted := t.wanted(line);
            && (FateOf(t, items, line, up) == Ended <==> wanted == Raises)
            && (FateOf(t, items, line, up) == Held <==>
                || wanted == Undated
                || (wanted.Asks? && (!up || Chokes(items, Some(wanted.row.id))))
                || (wanted.Unwritable? && (!up || Chokes(items, wanted.id))))
  {
    match t.wanted(line)
    case Asks(row) => AppendFailsIff(t.words, items, row);
    case Unwritable(id) => UnwrittenFailsIff(items, id);
    case _ =>
  }

  /** The ledger as it reads once a line has been passed. */
  function ItemsPast(t: Tools, items: seq<Item>, line: string): seq<Item> {
    match t.wanted(line)
    case Asks(row) => After(t.words, items, AppendOp(row))
    case _ => items
  }

  /** The ledger, the line where the drain stopped, and whether an error ended it. */
  datatype Drained = Drained(items: seq<Item>, next: nat, raised: bool)

  /** Drain from line `i` on; `up(i)` says that the lock and the disk work at line `i`. Ends at
      the first line that was not passed, or past the last. */
  function DrainFrom(t: Tools, items: seq<Item>, lines: seq<string>, i: nat, up: nat -> bool): (r: Drained)
    requires i <= |lines|
    ensures i <= r.next <= |lines|
    decreases |lines| - i
  {
    if i == |lines| then Drained(items, i, false)
    else match FateOf(t, items, lines[i], up(i))
         case Passed => DrainFrom(t, ItemsPast(t, items, lines[i]), lines, i + 1, up)
         case Held => Drained(items, i, false)
         case Ended => Drained(items, i, true)
  }

  /** The log no longer holds, under the cursor, the line it was saved at. */
  predicate Desync(t: Tools, lines: seq<string>, cursor: Cursor) {
    || cursor.line > |lines|
    || (cursor.anchor != "" && cursor.line > 0 && t.anchor(lines[cursor.line - 1]) != cursor.anchor)
  }

  function StartOf(t: Tools, lines: seq<string>, cursor: Cursor): (i: nat)
    ensures i <= |lines|
  {
    if Desync(t, lines, cursor) then 0 else cursor.line
  }

  function CursorAt(t: Tools, lines: seq<string>, n: nat): Cursor
    requires n <= |lines|
  {
    Cursor(n, if n > 0 then t.anchor(lines[n - 1]) else "")
  }

  /** What the ledger file reads as, the log if it exists, the cursor, and the lines before the
      cursor as they were when it was saved. */
  datatype Desk = Desk(items: seq<Item>, log: Option<Bytes>, cursor: Cursor, covered: seq<string>)

  /** There is a log to drain, and it can be read. */
  predicate Drains(d: Desk) {
    d.log.Some? && Legible(d.log.value)
  }

  function LinesOf(d: Desk): seq<string> {
    if Drains(d) then LogLines(d.log.value) else []
  }

  /** One tick; an error that nobody catches, from a line or from reading the log, leaves the
      cursor as it was. */
  function Tick(t: Tools, d: Desk, up: nat -> bool, saved: bool): Desk {
    if !Drains(d) then d
    else
      var lines := LinesOf(d);
      var r := DrainFrom(t, d.items, lines, StartOf(t, lines, d.cursor), up);
      if saved && !r.raised then d.(items := r.items, cursor := CursorAt(t, lines, r.next), covered := lines[..r.next])
      else d.(items := r.items)
  }

  // ------------------------------------------------------------- what a drain does

  /** The line asks for a row that is still there when the ledger is read again. */
  predicate Opens(t: Tools, line: string) {
    t.wanted(line).Asks? && Clean(t.wanted(line).row)
  }

  /** Some line among these opens a row of this id. */
  ghost predicate OpensId(t: Tools, lines: seq<string>, id: string) {
    exists j | 0 <= j < |lines| :: Opens(t, lines[j]) && t.wanted(lines[j]).row.id == id
  }

  lemma OpensIdFirst(t: Tools, lines: seq<string>, i: nat, n: nat, id: string)
    requires i < n <= |lines|
    ensures OpensId(t, lines[i..n], id) <==> (Opens(t, lines[i]) && t.wanted(lines[i]).row.id == id) || OpensId(t, lines[i + 1..n], id)
  {
    var all, rest := lines[i..n], lines[i + 1..n];
    if OpensId(t, all, id) && !(Opens(t, lines[i]) && t.wanted(lines[i]).row.id == id) {
      var j :| 0 <= j < |all| && Opens(t, all[j]) && t.wanted(all[j]).row.id == id;
      assert rest[j - 1] == all[j];
    }
    if OpensId(t, rest, id) {
      var j :| 0 <= j < |rest| && Opens(t, rest[j]) && t.wanted(rest[j]).row.id == id;
      assert all[j + 1] == rest[j];
    }
    assert all[0] == lines[i];
  }

  lemma OpensIdWithin(t: Tools, lines: seq<string>, c: nat, n: nat, k: nat, id: string)
    requires c <= n <= k <= |lines| && OpensId(t, lines[c..n], id)
    ensures OpensId(t, lines[..k], id)
  {
    var j :| 0 <= j < |lines[c..n]| && Opens(t, lines[c..n][j]) && t.wanted(lines[c..n][j]).row.id == id;
    assert lines[..k][c + j] == lines[c..n][j];
  }

  lemma PrefixFree(a: seq<Item>, b: seq<Item>)
    requires a <= b && Free(b)
    ensures Free(a)
  {
    forall item | item in a ensures item.Entry? || item.Object? { assert item in b; }
  }

  /** What an append leaves: everything that was there, and at the end the row if it is clean or
      else what is left of it. */
  lemma AppendAdds(w: Words, items: seq<Item>, row: Row)
    requires Sound(w, items) && Validate(w, row) == Ok(row)
    ensures After(w, items, AppendOp(row)) == if Append(w, items, row).Wrote? then items + Back(w, Entry(row)) else items
  {
    if Append(w, items, row).Wrote? {
      RereadAdds(w, items, Entry(row));
      CleanReread(w, items);
    }
  }

  /** Passing a line keeps everything in the ledger, and adds at most the row it opens. */
  lemma PassKeeps(t: Tools, items: seq<Item>, line: string, id: string)
    requires Sound(t.words, items) && ValidTools(t)
    ensures var next := ItemsPast(t, items, line);
            && Sound(t.words, next) && items <= next && (HasId(items, id) ==> HasId(next, id))
            && (HasId(next, id) ==> HasId(items, id) || (Opens(t, line) && t.wanted(line).row.id == id))
  {
    if t.wanted(line).Asks? {
      var row := t.wanted(line).row;
      AppendAdds(t.words, items, row);
      AfterKeepsSound(t.words, items, AppendOp(row));
      AppendToRow(t.words, items, row, id);
    }
  }

  /** Draining keeps everything in the ledger, and opens no row that no line it passes asks for. */
  lemma {:induction false} DrainKeeps(t: Tools, items: seq<Item>, lines: seq<string>, i: nat, up: nat -> bool, id: string)
    requires i <= |lines| && Sound(t.words, items) && ValidTools(t)
    ensures var r := DrainFrom(t, items, lines, i, up);
            && Sound(t.words, r.items) && items <= r.items && (HasId(items, id) ==> HasId(r.items, id))
            && (HasId(r.items, id) ==> HasId(items, id) || OpensId(t, lines[i..r.next], id))
    decreases |lines| - i
  {
    if i < |lines| && FateOf(t, items, lines[i], up(i)).Passed? {
      PassKeeps(t, items, lines[i], id);
      DrainKeeps(t, ItemsPast(t, items, lines[i]), lines, i + 1, up, id);
      OpensIdFirst(t, lines, i, DrainFrom(t, items, lines, i, up).next, id);
    }
  }

  /** A line that a reader which skips nothing lets pass has its row. */
  lemma PassedOpens(t: Tools, items: seq<Item>, line: string, up: bool)
    requires Sound(t.words, items) && ValidTools(t) && FateOf(t, items, line, up).Passed?
    requires Opens(t, line) && Poison(ValueError) !in items
    ensures HasId(ItemsPast(t, items, line), t.wanted(line).row.id)
  {
    var row := t.wanted(line).row;
    if !Readable(items) { ErrorInside(items); }
    AppendToRow(t.words, items, row, row.id);
  }

  lemma {:induction false} ErrorInside(items: seq<Item>)
    requires !Readable(items)
    ensures Poison(FirstError(items)) in items
  {
    if !items[0].Poison? {
      var item :| item in items && item.Poison?;
      assert item in items[1..];
      ErrorInside(items[1..]);
    }
  }

  /** Draining opens every clean request it passes, unless the ledger comes to hold a line that
      its parser raises a ValueError on: what fails with that is skipped. */
  lemma {:induction false} DrainOpens(t: Tools, items: seq<Item>, lines: seq<string>, i: nat, up: nat -> bool, k: nat, r: Drained)
    requires i <= k < |lines| && Sound(t.words, items) && ValidTools(t) && Opens(t, lines[k])
    requires r == DrainFrom(t, items, lines, i, up) && k < r.next && Poison(ValueError) !in r.items
    ensures HasId(r.items, t.wanted(lines[k]).row.id)
    decreases |lines| - i
  {
    var id := t.wanted(lines[k]).row.id;
    PassKeeps(t, items, lines[i], id);
    if k == i {
      FirstOpens(t, items, lines, i, up, r);
    } else {
      DrainOpens(t, ItemsPast(t, items, lines[i]), lines, i + 1, up, k, r);
    }
  }

  lemma FirstOpens(t: Tools, items: seq<Item>, lines: seq<string>, i: nat, up: nat -> bool, r: Drained)
    requires i < |lines| && Sound(t.words, items) && ValidTools(t) && Opens(t, lines[i])
    requires r == DrainFrom(t, items, lines, i, up) && i < r.next && Poison(ValueError) !in r.items
    ensures HasId(r.items, t.wanted(lines[i]).row.id)
  {
    var id := t.wanted(lines[i]).row.id;
    DrainKeeps(t, items, lines, i, up, id);
    PassKeeps(t, items, lines[i], id);
    assert Poison(ValueError) in items ==> Poison(ValueError) in r.items;
    PassedOpens(t, items, lines[i], up(i));
    DrainKeeps(t, ItemsPast(t, items, lines[i]), lines, i + 1, up, id);
  }

  lemma OpensIdAt(t: Tools, lines: seq<string>, i: nat, n: nat, id: string) returns (k: nat)
    requires i <= n <= |lines| && OpensId(t, lines[i..n], id)
    ensures i <= k < n && Opens(t, lines[k]) && t.wanted(lines[k]).row.id == id
  {
    var j :| 0 <= j < |lines[i..n]| && Opens(t, lines[i..n][j]) && t.wanted(lines[i..n][j]).row.id == id;
    k := i + j;
  }

  /** Draining opens exactly the requests it passes that were not open yet and that hold no
      line separator, as long as the ledger is free at its end. */
  lemma DrainExact(t: Tools, items: seq<Item>, lines: seq<string>, i: nat, up: nat -> bool, id: string, r: Drained)
    requires i <= |lines| && Sound(t.words, items) && ValidTools(t)
    requires r == DrainFrom(t, items, lines, i, up) && Free(r.items)
    ensures HasId(r.items, id) <==> HasId(items, id) || OpensId(t, lines[i..r.next], id)
  {
    DrainKeeps(t, items, lines, i, up, id);
    if OpensId(t, lines[i..r.next], id) {
      var k := OpensIdAt(t, lines, i, r.next, id);
      DrainOpens(t, items, lines, i, up, k, r);
    }
  }

  // ------------------------------------------------------------ what stops a drain

  /** The ledger as it reads when the drain gets to line `k`. */
  function ItemsAt(t: Tools, items: seq<Item>, lines: seq<string>, i: nat, k: nat): seq<Item>
    requires i <= k <= |lines|
    decreases k - i
  {
    if i == k then items else ItemsAt(t, ItemsPast(t, items, lines[i]), lines, i + 1, k)
  }

  /** What becomes of line `k` when the drain gets there. */
  function FateAt(t: Tools, items: seq<Item>, lines: seq<string>, i: nat, up: nat -> bool, k: nat): Fate
    requires i <= k < |lines|
  {
    FateOf(t, ItemsAt(t, items, lines, i, k), lines[k], up(k))
  }

  /** A drain passes the lines up to the first that it may not pass, and gets to the end if and
      only if there is none. */
  lemma {:induction false} DrainPassesIff(t: Tools, items: seq<Item>, lines: seq<string>, i: nat, up: nat -> bool)
    requires i <= |lines|
    ensures var r := DrainFrom(t, items, lines, i, up);
            && r.items == ItemsAt(t, items, lines, i, r.next)
            && (forall k | i <= k < r.next :: FateAt(t, items, lines, i, up, k) == Passed)
            && (r.next < |lines| ==> FateAt(t, items, lines, i, up, r.next) == (if r.raised then Ended else Held))
            && (r.next == |lines| ==> !r.raised)
    decreases |lines| - i
  {
    if i < |lines| && FateOf(t, items, lines[i], up(i)).Passed? {
      var next, r := ItemsPast(t, items, lines[i]), DrainFrom(t, items, lines, i, up);
      DrainPassesIff(t, next, lines, i + 1, up);
      forall k | i < k < |lines| ensures FateAt(t, items, lines, i, up, k) == FateAt(t, next, lines, i + 1, up, k) {}
    }
  }

  /** No tick ever passes this line, however well the ledger works. */
  predicate Blocks(t: Tools, line: string) {
    t.wanted(line).Raises? || t.wanted(line).Undated?
  }

  /** The first line from `i` on that blocks, or the length. */
  function FirstBlock(t: Tools, lines: seq<string>, i: nat): (n: nat)
    requires i <= |lines|
    ensures i <= n <= |lines| && (n < |lines| ==> Blocks(t, lines[n]))
    ensures forall k | i <= k < n :: !Blocks(t, lines[k])
    decreases |lines| - i
  {
    if i == |lines| || Blocks(t, lines[i]) then i else FirstBlock(t, lines, i + 1)
  }

  /** The row this line asks for leaves something that stops the ledger. */
  predicate Wild(t: Tools, line: string) {
    t.wanted(line).Asks? && !Tame(t.words, t.wanted(line).row)
  }

  /** Line `k` is wild and new: no row has its id, nor do the lines from `i` to there open one. */
  ghost predicate Spoils(t: Tools, items: seq<Item>, lines: seq<string>, i: nat, k: nat)
    requires i <= k < |lines|
  {
    Wild(t, lines[k]) && !HasId(items, t.wanted(lines[k]).row.id) && !OpensId(t, lines[i..k], t.wanted(lines[k]).row.id)
  }

  /** On a free ledger every line that does not block is passed, and leaves it free exactly if
      it is no wild request of a new id. */
  lemma FreePass(t: Tools, items: seq<Item>, line: string)
    requires Sound(t.words, items) && ValidTools(t) && Free(items)
    ensures !Blocks(t, line) ==> FateOf(t, items, line, true).Passed?
    ensures Free(ItemsPast(t, items, line)) <==> !(Wild(t, line) && !HasId(items, t.wanted(line).row.id))
    ensures Opens(t, line) ==> HasId(ItemsPast(t, items, line), t.wanted(line).row.id)
  {
    assert forall k | 0 <= k < |items| :: items[k] in items;
    if t.wanted(line).Asks? {
      var row := t.wanted(line).row;
      FreeWorks(t.words, items, AppendOp(row));
      AppendAdds(t.words, items, row);
      FreeJoin(items, Back(t.words, Entry(row)));
      AppendToRow(t.words, items, row, row.id);
    }
  }

  /** Whether a line further on spoils the ledger is the same before and after a line is passed. */
  lemma SpoilsLater(t: Tools, items: seq<Item>, lines: seq<string>, i: nat, k: nat)
    requires i < k < |lines| && Sound(t.words, items) && ValidTools(t) && Free(items)
    ensures Spoils(t, items, lines, i, k) <==> Spoils(t, ItemsPast(t, items, lines[i]), lines, i + 1, k)
  {
    if Wild(t, lines[k]) {
      var id := t.wanted(lines[k]).row.id;
      PassKeeps(t, items, lines[i], id);
      FreePass(t, items, lines[i]);
      OpensIdFirst(t, lines, i, k, id);
    }
  }

  lemma SpoilsNow(t: Tools, items: seq<Item>, lines: seq<string>, i: nat)
    requires i < |lines|
    ensures Spoils(t, items, lines, i, i) <==> Wild(t, lines[i]) && !HasId(items, t.wanted(lines[i]).row.id)
  {
    assert lines[i..i] == [];
  }

  /** No line from `i` up to `n` is wild and new. */
  ghost predicate NoneSpoils(t: Tools, items: seq<Item>, lines: seq<string>, i: nat, n: nat)
    requires i <= n <= |lines|
  {
    forall k | i <= k < n :: !Spoils(t, items, lines, i, k)
  }

  lemma NoneSpoilsStep(t: Tools, items: seq<Item>, lines: seq<string>, i: nat, n: nat)
    requires i < n <= |lines| && Sound(t.words, items) && ValidTools(t) && Free(items)
    ensures NoneSpoils(t, items, lines, i, n) <==>
            Free(ItemsPast(t, items, lines[i])) && NoneSpoils(t, ItemsPast(t, items, lines[i]), lines, i + 1, n)
  {
    var next := ItemsPast(t, items, lines[i]);
    FreePass(t, items, lines[i]);
    SpoilsNow(t, items, lines, i);
    if NoneSpoils(t, items, lines, i, n) {
      assert !Spoils(t, items, lines, i, i);
      var j := i + 1;
      forall k | j <= k < n ensures !Spoils(t, next, lines, j, k) { SpoilsLater(t, items, lines, i, k); }
    }
    if Free(next) && NoneSpoils(t, next, lines, i + 1, n) {
      forall k | i <= k < n ensures !Spoils(t, items, lines, i, k) {
        if k > i { SpoilsLater(t, items, lines, i, k); }
      }
    }
  }

  /** A drain leaves a free ledger free if and only if it passes no wild request of a new id. */
  lemma {:induction false} DrainFreeIff(t: Tools, items: seq<Item>, lines: seq<string>, i: nat, up: nat -> bool, r: Drained)
    requires i <= |lines| && Sound(t.words, items) && ValidTools(t) && Free(items) && r == DrainFrom(t, items, lines, i, up)
    ensures Free(r.items) <==> NoneSpoils(t, items, lines, i, r.next)
    decreases |lines| - i
  {
    if i < |lines| && FateOf(t, items, lines[i], up(i)).Passed? {
      var next := ItemsPast(t, items, lines[i]);
      PassKeeps(t, items, lines[i], "");
      NoneSpoilsStep(t, items, lines, i, r.next);
      if Free(next) { DrainFreeIff(t, next, lines, i + 1, up, r); } else { SpoiledDrain(t, next, lines, i + 1, up); }
    }
  }

  /** With a working lock and disk and a free ledger, a drain passes every line up to the first
      that blocks, bad lines included, and leaves the ledger free, unless it meets a wild
      request of a new id before; that one it passes, too. It ends in an error exactly when it
      stops at a line that raises. */
  lemma {:induction false} WorkingDrain(t: Tools, items: seq<Item>, lines: seq<string>, i: nat, up: nat -> bool, r: Drained, n: nat)
    requires i <= |lines| && Sound(t.words, items) && ValidTools(t) && Free(items) && forall k :: up(k)
    requires r == DrainFrom(t, items, lines, i, up) && n == FirstBlock(t, lines, i)
    ensures if NoneSpoils(t, items, lines, i, n) then
              r.next == n && Free(r.items) && (r.raised <==> n < |lines| && t.wanted(lines[n]).Raises?)
            else !Free(r.items) && r.next <= n && (r.raised ==> r.next == n)
    decreases |lines| - i
  {
    if i < n {
      var next := ItemsPast(t, items, lines[i]);
      FreePass(t, items, lines[i]);
      PassKeeps(t, items, lines[i], "");
      NoneSpoilsStep(t, items, lines, i, n);
      if Free(next) { WorkingDrain(t, next, lines, i + 1, up, r, n); } else { SpoiledDrain(t, next, lines, i + 1, up); }
    }
  }

  /** On a spoiled ledger a drain opens nothing, and stops at the first line that blocks at the
      latest. */
  lemma {:induction false} SpoiledDrain(t: Tools, items: seq<Item>, lines: seq<string>, i: nat, up: nat -> bool)
    requires i <= |lines| && !Free(items)
    ensures var r := DrainFrom(t, items, lines, i, up);
            r.items == items && r.next <= FirstBlock(t, lines, i) && (r.raised ==> r.next == FirstBlock(t, lines, i))
    decreases |lines| - i
  {
    if i < |lines| && FateOf(t, items, lines[i], up(i)).Passed? {
      SpoiledPass(t, items, lines[i]);
      SpoiledDrain(t, items, lines, i + 1, up);
    }
  }

  lemma SpoiledPass(t: Tools, items: seq<Item>, line: string)
    requires !Free(items)
    ensures ItemsPast(t, items, line) == items
  {
    if t.wanted(line).Asks? && Validate(t.words, t.wanted(line).row).Ok? {
      var bad :| bad in items && !bad.Entry? && !bad.Object?;
      var k :| 0 <= k < |items| && items[k] == bad;
      assert bad.Poison? || Ends(items[k], Validate(t.words, t.wanted(line).row).value.id, None);
    }
  }
}
