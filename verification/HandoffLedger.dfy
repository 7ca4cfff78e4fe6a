/** The handoff ledger: rows opened once, a status that is compared and swapped, deadlines
    kept within bounds. Writers take a lock, so any interleaving of them is a sequence. Every
    operation reads the whole file and rewrites it; not every row survives that, and what is
    left of one can stop every later operation. */
module HandoffLedger {
  import opened Outcome
  import opened TextLines
  import J = Json

  /** Microseconds, as Python's dates count them, without the limits of its calendar. */
  type Instant = int

  datatype Status = Open | Closed | Escalated

  datatype Row = Row(id: string, from: string, owner: string, action: string, artifact: string,
                     openedAt: string, deadline: Instant, status: Status, closed: string,
                     evidence: string, note: string)

  const SECOND := 1_000_000
  const SWEEP_INTERVAL := 180 * SECOND
  const DEADLINE_DEFAULT := 7200 * SECOND
  const DEADLINE_MIN := 2 * SWEEP_INTERVAL
  const DEADLINE_MAX := 14400 * SECOND
  const CANARY := "__canary__"
  const EPHEMERAL := ["/tmp", "/private/tmp", "/var/folders"]

  /** What raises: an error that callers take for bad data, or any other. */
  datatype Error = ValueError | OtherError

  /** What a stripped line of the file is to its reader: a row; an object without the fields of
      a row; another JSON value, which has no fields at all; or a line that the parser raises on
      (a numeral with too many digits, too deep a nesting). The text of a value is the one that
      writing it gives. */
  datatype Item = Entry(row: Row) | Object(text: string) | Stray(text: string) | Poison(error: Error)

  /** What Python says about texts: case folding, digits, the time that a text denotes, whether
      its calendar holds the date that lies so much later than that, and what a line of JSON is,
      if it is one. */
  datatype Words = Words(lower: string -> string, digit: char -> bool, time: string -> Option<Instant>,
                         dated: (string, int) -> bool, loads: string -> Option<Item>)

  function Clamp(lasting: int): (r: int)
    ensures DEADLINE_MIN <= r <= DEADLINE_MAX
    ensures DEADLINE_MIN <= lasting <= DEADLINE_MAX ==> r == lasting
    ensures lasting < DEADLINE_MIN ==> r == DEADLINE_MIN
    ensures lasting > DEADLINE_MAX ==> r == DEADLINE_MAX
  {
    var low := if lasting < DEADLINE_MAX then lasting else DEADLINE_MAX;
    if low > DEADLINE_MIN then low else DEADLINE_MIN
  }

  predicate Ephemeral(evidence: string) {
    exists k | 0 <= k < |EPHEMERAL| :: EPHEMERAL[k] <= evidence
  }

  function TimeOf(w: Words, text: string): Result<Instant> {
    if w.time(text).Some? then Ok(w.time(text).value) else Refused
  }

  /** Check a row against the contract, and bring its deadline within bounds. */
  function Validate(w: Words, row: Row): Result<Row> {
    var _ :- Check(
      && !Blank(row.id) && !Blank(row.from) && !Blank(row.owner) && !Blank(row.action) && !Blank(row.artifact)
      && !Blank(row.openedAt) && (!Blank(row.evidence) ==> !Ephemeral(row.evidence)));
    var start :- TimeOf(w, row.openedAt);
    var _ :- Check(row.deadline > start && (Blank(row.closed) || w.time(row.closed).Some?));
    Ok(row.(deadline := start + Clamp(row.deadline - start)))
  }

  function NewHandoff(w: Words, id: string, from: string, owner: string, action: string, artifact: string,
                      openedAt: string, lasting: int): Result<Row> {
    var start :- TimeOf(w, openedAt);
    Validate(w, Row(id, from, owner, action, artifact, openedAt, start + Clamp(lasting), Open, "", "", ""))
  }

  /** A row is in order exactly when no text that names something is blank, its evidence is no
      temporary path, its times are times, and its deadline is after its opening; all that changes
      is the deadline, which comes to lie between six minutes and four hours after the opening. */
  lemma ValidateIff(w: Words, row: Row, valid: Row)
    ensures Validate(w, row) == Ok(valid) <==>
            && !Blank(row.id) && !Blank(row.from) && !Blank(row.owner) && !Blank(row.action) && !Blank(row.artifact) && !Blank(row.openedAt)
            && (Blank(row.evidence)
                || !("/tmp" <= row.evidence || "/private/tmp" <= row.evidence || "/var/folders" <= row.evidence))
            && (Blank(row.closed) || w.time(row.closed).Some?)
            && w.time(row.openedAt).Some? && row.deadline > w.time(row.openedAt).value
            && valid == row.(deadline := valid.deadline)
            && (var start := w.time(row.openedAt).value;
                valid.deadline == if row.deadline < start + 360_000_000 then start + 360_000_000
                                  else if row.deadline > start + 14_400_000_000 then start + 14_400_000_000
                                  else row.deadline)
  {
    assert Ephemeral(row.evidence) <==>
           EPHEMERAL[0] <= row.evidence || EPHEMERAL[1] <= row.evidence || EPHEMERAL[2] <= row.evidence;
  }

  // ------------------------------------------------------- what reading gives back

  /** The line separators that JSON leaves as they are in a text, and that reading the
      ledger splits its lines at. */
  predicate Separates(c: char) {
    c == '\U{0085}' || c == '\U{2028}' || c == '\U{2029}'
  }

  predicate CleanText(s: string) {
    forall c | c in s :: !Separates(c)
  }

  /** The texts of a row that callers choose, in the order in which they are written. */
  function TextsOf(row: Row): seq<string> {
    [row.id, row.from, row.owner, row.action, row.artifact, row.openedAt, row.closed, row.evidence, row.note]
  }

  /** No text of the row holds a line separator. */
  predicate Clean(row: Row) {
    && CleanText(row.id) && CleanText(row.from) && CleanText(row.owner) && CleanText(row.action)
    && CleanText(row.artifact) && CleanText(row.openedAt) && CleanText(row.closed) && CleanText(row.evidence)
    && CleanText(row.note)
  }

  function FirstSeparator(t: string): (k: nat)
    requires !CleanText(t)
    ensures k < |t| && Separates(t[k]) && CleanText(t[..k])
  {
    if Separates(t[0]) then 0 else 1 + FirstSeparator(t[1..])
  }

  /** The parts of a text between its line separators. */
  function Parts(t: string): (ps: seq<string>)
    ensures ps != []
    decreases |t|
  {
    if CleanText(t) then [t] else [t[..FirstSeparator(t)]] + Parts(t[FirstSeparator(t) + 1..])
  }

  /** A text as JSON writes it between quotes. */
  function Written(t: string): string {
    if t == "" then "" else J.Escaped(t[0]) + Written(t[1..])
  }

  /** What is read of a part with a separator on both sides, which is a line of its own; a row
      has quotes, and so is no such part. */
  function Inner(w: Words, part: string): seq<Item> {
    var line := Strip(Written(part));
    if line == "" then []
    else match w.loads(line)
         case None => []
         case Some(item) => if item.Entry? then [] else [item]
  }

  /** What is read of the last part, whose line goes on past the closing quote: that is no JSON,
      but the parser may raise before it gets to the quote. */
  function Last(w: Words, part: string): seq<Item> {
    match w.loads(Strip(J.Body(part)))
    case Some(Poison(e)) => [Poison(e)]
    case _ => []
  }

  /** What is read of a text from right after one of its separators on. */
  function Following(w: Words, t: string): seq<Item>
    decreases |t|
  {
    if CleanText(t) then Last(w, t)
    else Inner(w, t[..FirstSeparator(t)]) + Following(w, t[FirstSeparator(t) + 1..])
  }

  /** What is left of a text that a line was broken in. */
  function LeftOf(w: Words, t: string): seq<Item> {
    if CleanText(t) then [] else Following(w, t[FirstSeparator(t) + 1..])
  }

  function LeftOfAll(w: Words, ts: seq<string>): seq<Item> {
    if ts == [] then [] else LeftOf(w, ts[0]) + LeftOfAll(w, ts[1..])
  }

  /** What is left of a row that holds line separators. */
  function Leftover(w: Words, row: Row): seq<Item> {
    LeftOfAll(w, TextsOf(row))
  }

  /** What a written item reads as. */
  function Back(w: Words, item: Item): seq<Item> {
    if item.Entry? && !Clean(item.row) then Leftover(w, item.row) else [item]
  }

  function Reread(w: Words, items: seq<Item>): seq<Item> {
    if items == [] then [] else Back(w, items[0]) + Reread(w, items[1..])
  }

  /** Nothing here stops an operation: no stray value, and no line the parser raises on. */
  predicate Free(items: seq<Item>) {
    forall item | item in items :: item.Entry? || item.Object?
  }

  /** Written to the file, the row leaves nothing there that stops an operation. */
  predicate Tame(w: Words, row: Row) {
    Free(Back(w, Entry(row)))
  }

  /** Of the parts after a separator none that another one follows is a JSON value other than
      an object, and the parser raises on none. */
  predicate FreeParts(w: Words, parts: seq<string>)
    requires parts != []
  {
    if |parts| == 1 then Last(w, parts[0]) == [] else Free(Inner(w, parts[0])) && FreeParts(w, parts[1..])
  }

  /** The same of one text, in terms of its parts. */
  predicate TameText(w: Words, t: string) {
    |Parts(t)| > 1 ==> FreeParts(w, Parts(t)[1..])
  }

  lemma FreeJoin(a: seq<Item>, b: seq<Item>)
    ensures Free(a + b) <==> Free(a) && Free(b)
  {
    if Free(a + b) {
      forall item | item in a ensures item.Entry? || item.Object? { assert item in a + b; }
      forall item | item in b ensures item.Entry? || item.Object? { assert item in a + b; }
    }
  }

  lemma {:induction false} FollowingFreeIff(w: Words, t: string)
    ensures Free(Following(w, t)) <==> FreeParts(w, Parts(t))
    decreases |t|
  {
    if CleanText(t) {
      var last := Last(w, t);
      assert last != [] ==> last[0] in last;
    } else {
      var k := FirstSeparator(t);
      FreeJoin(Inner(w, t[..k]), Following(w, t[k + 1..]));
      FollowingFreeIff(w, t[k + 1..]);
      assert Parts(t)[1..] == Parts(t[k + 1..]);
    }
  }

  lemma LeftFreeIff(w: Words, t: string)
    ensures Free(LeftOf(w, t)) <==> TameText(w, t)
  {
    if !CleanText(t) {
      FollowingFreeIff(w, t[FirstSeparator(t) + 1..]);
      assert Parts(t)[1..] == Parts(t[FirstSeparator(t) + 1..]);
    }
  }

  lemma {:induction false} LeftAllFreeIff(w: Words, ts: seq<string>)
    ensures Free(LeftOfAll(w, ts)) <==> forall t | t in ts :: TameText(w, t)
  {
    if ts != [] {
      FreeJoin(LeftOf(w, ts[0]), LeftOfAll(w, ts[1..]));
      LeftFreeIff(w, ts[0]);
      LeftAllFreeIff(w, ts[1..]);
      assert forall t :: t in ts <==> t == ts[0] || t in ts[1..];
    }
  }

  lemma CleanIsTame(w: Words, t: string)
    requires CleanText(t)
    ensures TameText(w, t)
  {
  }

  lemma CleanTextsOf(row: Row)
    ensures Clean(row) <==> forall t | t in TextsOf(row) :: CleanText(t)
  {
    var ts := TextsOf(row);
    assert row.id == ts[0] && row.from == ts[1] && row.owner == ts[2] && row.action == ts[3] && row.artifact == ts[4];
    assert row.openedAt == ts[5] && row.closed == ts[6] && row.evidence == ts[7] && row.note == ts[8];
  }

  /** What a caller can test: a row is tame exactly when each of its texts is. */
  lemma TameIff(w: Words, row: Row)
    ensures Tame(w, row) <==> forall t | t in TextsOf(row) :: TameText(w, t)
  {
    LeftAllFreeIff(w, TextsOf(row));
    if Clean(row) {
      CleanTextsOf(row);
      forall t | t in TextsOf(row) ensures TameText(w, t) { CleanIsTame(w, t); }
    }
  }

  predicate NoEntries(items: seq<Item>) {
    forall item | item in items :: !item.Entry?
  }

  lemma {:induction false} FollowingNoEntries(w: Words, t: string)
    ensures NoEntries(Following(w, t))
    decreases |t|
  {
    if !CleanText(t) { FollowingNoEntries(w, t[FirstSeparator(t) + 1..]); }
  }

  lemma {:induction false} LeftAllNoEntries(w: Words, ts: seq<string>)
    ensures NoEntries(LeftOfAll(w, ts))
  {
    if ts != [] {
      if !CleanText(ts[0]) { FollowingNoEntries(w, ts[0][FirstSeparator(ts[0]) + 1..]); }
      LeftAllNoEntries(w, ts[1..]);
    }
  }

  /** What is left of a row is no row. */
  lemma LeftoverNoEntries(w: Words, row: Row)
    ensures NoEntries(Leftover(w, row))
  {
    LeftAllNoEntries(w, TextsOf(row));
  }

  /** Each item of the file after a write comes from one that was written; the rows among them
      are the clean ones, and values stay. */
  lemma {:induction false} RereadExactly(w: Words, items: seq<Item>, item: Item)
    ensures item.Entry? ==> (item in Reread(w, items) <==> item in items && Clean(item.row))
    ensures !item.Entry? && item in items ==> item in Reread(w, items)
  {
    if items != [] {
      RereadExactly(w, items[1..], item);
      assert item in items <==> item == items[0] || item in items[1..];
      if items[0].Entry? { LeftoverNoEntries(w, items[0].row); }
    }
  }

  lemma {:induction false} RereadUnique(w: Words, items: seq<Item>)
    requires UniqueIds(items)
    ensures UniqueIds(Reread(w, items))
  {
    if items != [] {
      var first, rest := Back(w, items[0]), Reread(w, items[1..]);
      TailUnique(items);
      RereadUnique(w, items[1..]);
      if items[0].Entry? { LeftoverNoEntries(w, items[0].row); }
      forall r | Entry(r) in rest && items[0].Entry? ensures r.id != items[0].row.id {
        RereadExactly(w, items[1..], Entry(r));
        var k :| 0 <= k < |items[1..]| && items[1..][k] == Entry(r);
        assert items[k + 1] == Entry(r);
      }
      JoinUnique(first, rest);
    }
  }

  lemma TailUnique(items: seq<Item>)
    requires items != [] && UniqueIds(items)
    ensures UniqueIds(items[1..])
  {
  }

  lemma JoinUnique(a: seq<Item>, b: seq<Item>)
    requires UniqueIds(b) && (NoEntries(a) || |a| == 1)
    requires forall r, q | Entry(r) in a && Entry(q) in b :: r.id != q.id
    ensures UniqueIds(a + b)
  {
    var all := a + b;
    forall i, j | 0 <= i < j < |all| && all[i].Entry? && all[j].Entry? ensures all[i].row.id != all[j].row.id {
      if i < |a| {
        assert all[i] in a && Entry(all[i].row) in a && j >= |a|;
        assert all[j] in b && Entry(all[j].row) in b;
      } else {
        assert all[i] == b[i - |a|] && all[j] == b[j - |a|];
      }
    }
  }

  /** Items whose rows are clean read back as they are. */
  lemma {:induction false} CleanReread(w: Words, items: seq<Item>)
    requires forall r | Entry(r) in items :: Clean(r)
    ensures Reread(w, items) == items
  {
    if items != [] {
      assert items[0] in items;
      assert items[0].Entry? ==> Entry(items[0].row) in items;
      forall r | Entry(r) in items[1..] ensures Clean(r) { assert Entry(r) in items; }
      CleanReread(w, items[1..]);
      assert items == [items[0]] + items[1..];
    }
  }

  lemma OneReread(w: Words, item: Item)
    ensures Reread(w, [item]) == Back(w, item)
  {
    assert Reread(w, [item]) == Back(w, item) + Reread(w, []);
  }

  lemma {:induction false} RereadAdds(w: Words, items: seq<Item>, item: Item)
    ensures Reread(w, items + [item]) == Reread(w, items) + Back(w, item)
  {
    if items == [] {
      assert items + [item] == [item];
      OneReread(w, item);
    } else {
      RereadAdds(w, items[1..], item);
      assert (items + [item])[0] == items[0] && (items + [item])[1..] == items[1..] + [item];
      Regrouped(Back(w, items[0]), Reread(w, items[1..]), Back(w, item));
    }
  }

  /** All that is known about the file after a write. */
  lemma RereadMeans(w: Words, items: seq<Item>)
    requires UniqueIds(items)
    ensures UniqueIds(Reread(w, items))
    ensures forall r :: Entry(r) in Reread(w, items) <==> Entry(r) in items && Clean(r)
  {
    RereadUnique(w, items);
    forall r ensures Entry(r) in Reread(w, items) <==> Entry(r) in items && Clean(r) { RereadExactly(w, items, Entry(r)); }
  }

  lemma {:induction false} RereadFreeIff(w: Words, items: seq<Item>)
    ensures Free(Reread(w, items)) <==> forall item | item in items :: Free(Back(w, item))
  {
    if items != [] {
      FreeJoin(Back(w, items[0]), Reread(w, items[1..]));
      RereadFreeIff(w, items[1..]);
      assert forall item :: item in items <==> item == items[0] || item in items[1..];
    }
  }

  // ------------------------------------------------------------ the operations

  predicate HasId(items: seq<Item>, id: string) {
    exists k | 0 <= k < |items| :: items[k].Entry? && items[k].row.id == id
  }

  /** Reading the file raises on the first line that its parser raises on. */
  predicate Readable(items: seq<Item>) {
    forall item | item in items :: !item.Poison?
  }

  function FirstError(items: seq<Item>): Error
    requires !Readable(items)
  {
    if items[0].Poison? then items[0].error else FirstError(items[1..])
  }

  predicate HasStray(items: seq<Item>) {
    exists item | item in items :: item.Stray?
  }

  /** What an operation comes to: new contents for the file; nothing to change (for an append, a
      row that exists already); a refusal that callers take for bad data; or another error. */
  datatype Did = Wrote(items: seq<Item>) | Kept | Bad | Failed

  function Unread(items: seq<Item>): Did
    requires !Readable(items)
  {
    if FirstError(items) == ValueError then Bad else Failed
  }

  /** Where a scan for a row of this id, and of this status if one is given, ends: at that row,
      at a stray value, which has no fields to look at, or at the end. */
  function Seek(items: seq<Item>, id: string, wanted: Option<Status>): (k: nat)
    ensures k <= |items|
    ensures k < |items| ==> Ends(items[k], id, wanted)
    ensures forall j :: 0 <= j < k ==> !Ends(items[j], id, wanted)
  {
    if items == [] || Ends(items[0], id, wanted) then 0 else 1 + Seek(items[1..], id, wanted)
  }

  predicate Ends(item: Item, id: string, wanted: Option<Status>) {
    item.Stray? || (item.Entry? && item.row.id == id && (wanted.Some? ==> item.row.status == wanted.value))
  }

  /** Whether this transition stamps the closing time. */
  predicate Stamps(wanted: Status, to: Status) {
    (wanted == Open && (to == Closed || to == Escalated)) || (wanted == Escalated && to == Closed)
  }

  function Swapped(row: Row, wanted: Status, to: Status, now: string, note: string): Row {
    row.(status := to,
         closed := if now != "" && Stamps(wanted, to) then now else row.closed,
         note := if note != "" then note else row.note)
  }

  function Without(items: seq<Item>, id: string): seq<Item> {
    if items == [] then []
    else (if items[0].Entry? && items[0].row.id == id then [] else [items[0]]) + Without(items[1..], id)
  }

  datatype Op =
    | AppendOp(row: Row)
    | CasOp(id: string, wanted: Status, to: Status, now: string, note: string)
    | RemoveOp(id: string)

  /** Add one validated row, unless its id exists already. */
  function Append(w: Words, items: seq<Item>, row: Row): Did {
    match Validate(w, row)
    case Refused => Bad
    case Ok(valid) =>
      if !Readable(items) then Unread(items)
      else
        var k := Seek(items, valid.id, None);
        if k == |items| then Wrote(items + [Entry(valid)]) else if items[k].Stray? then Failed else Kept
  }

  /** Swap the status of the first row of this id that is in the expected one. */
  function Cas(items: seq<Item>, id: string, wanted: Status, to: Status, now: string, note: string): Did {
    if !Readable(items) then Unread(items)
    else
      var k := Seek(items, id, Some(wanted));
      if k == |items| then Kept
      else if items[k].Stray? then Failed
      else Wrote(items[k := Entry(Swapped(items[k].row, wanted, to, now, note))])
  }

  /** A swap that wins changes the first row of its id and status, and nothing else: the status; the
      closing time, if it is given one and its transition is one of the three; the note, if it
      is given one. */
  lemma SwapSets(items: seq<Item>, id: string, wanted: Status, to: Status, now: string, note: string)
    returns (k: nat, was: Row, row: Row)
    requires Cas(items, id, wanted, to, now, note).Wrote?
    ensures k < |items| && items[k] == Entry(was) && was.id == id && was.status == wanted
    ensures forall j | 0 <= j < k && items[j].Entry? :: !(items[j].row.id == id && items[j].row.status == wanted)
    ensures Cas(items, id, wanted, to, now, note) == Wrote(items[..k] + [Entry(row)] + items[k + 1..])
    ensures row.status == to
    ensures now != "" && (wanted, to) in {(Open, Closed), (Open, Escalated), (Escalated, Closed)} ==> row.closed == now
    ensures now == "" || (wanted, to) !in {(Open, Closed), (Open, Escalated), (Escalated, Closed)} ==> row.closed == was.closed
    ensures row.note == if note == "" then was.note else note
    ensures row == was.(status := row.status, closed := row.closed, note := row.note)
  {
    k := Seek(items, id, Some(wanted));
    was := items[k].row;
    row := Swapped(was, wanted, to, now, note);
    assert items[k := Entry(row)] == items[..k] + [Entry(row)] + items[k + 1..];
  }

  /** An append that writes adds the validated row at the end, under an id that no row has. */
  lemma AppendSets(w: Words, items: seq<Item>, row: Row) returns (valid: Row)
    requires Append(w, items, row).Wrote?
    ensures Validate(w, row) == Ok(valid) && Append(w, items, row) == Wrote(items + [Entry(valid)])
    ensures forall item | item in items :: !item.Poison? && !item.Stray? && (item.Entry? ==> item.row.id != row.id)
  {
    valid := Validate(w, row).value;
    assert forall item | item in items :: !Ends(item, valid.id, None);
  }

  function Remove(items: seq<Item>, id: string): Did {
    if !Readable(items) then Unread(items)
    else if HasStray(items) then Failed
    else if HasId(items, id) then Wrote(Without(items, id)) else Kept
  }

  function Do(w: Words, items: seq<Item>, op: Op): Did {
    match op
    case AppendOp(row) => Append(w, items, row)
    case CasOp(id, wanted, to, now, note) => Cas(items, id, wanted, to, now, note)
    case RemoveOp(id) => Remove(items, id)
  }

  /** What the next operation reads. */
  function After(w: Words, items: seq<Item>, op: Op): seq<Item> {
    match Do(w, items, op) case Wrote(next) => Reread(w, next) case _ => items
  }

  function AfterAll(w: Words, items: seq<Item>, ops: seq<Op>): seq<Item>
    decreases |ops|
  {
    if ops == [] then items else AfterAll(w, After(w, items, ops[0]), ops[1..])
  }

  // ------------------------------------------------------------- the invariant

  predicate UniqueIds(items: seq<Item>) {
    forall i, j :: 0 <= i < j < |items| && items[i].Entry? && items[j].Entry? ==> items[i].row.id != items[j].row.id
  }

  predicate DeadlineBounded(w: Words, row: Row) {
    var start := w.time(row.openedAt);
    start.Some? && start.value + DEADLINE_MIN <= row.deadline <= start.value + DEADLINE_MAX
  }

  ghost predicate Sound(w: Words, items: seq<Item>) {
    UniqueIds(items) && forall r | Entry(r) in items :: DeadlineBounded(w, r) && Clean(r)
  }

  /** Open to escalated or closed, and escalated to closed. */
  predicate Forward(wanted: Status, to: Status) {
    (wanted == Open && to != Open) || (wanted == Escalated && to == Closed)
  }

  /** Only forward transitions, every append opens, and only canaries are removed. */
  predicate Allowed(op: Op) {
    match op
    case AppendOp(row) => row.status == Open && row.closed == ""
    case CasOp(_, wanted, to, _, _) => Forward(wanted, to)
    case RemoveOp(id) => CANARY <= id
  }

  /** The operation writes no line separator into the row of this id. */
  predicate CleanFor(op: Op, id: string) {
    match op
    case AppendOp(row) => row.id == id ==> Clean(row)
    case CasOp(cid, _, _, now, note) => cid == id ==> CleanText(now) && CleanText(note)
    case RemoveOp(_) => true
  }

  lemma {:induction false} WithoutKeeps(items: seq<Item>, id: string)
    ensures forall item :: item in Without(items, id) <==> item in items && !(item.Entry? && item.row.id == id)
    ensures UniqueIds(items) ==> UniqueIds(Without(items, id))
  {
    if items != [] {
      WithoutKeeps(items[1..], id);
      assert items == [items[0]] + items[1..];
      if UniqueIds(items) {
        var rest := Without(items[1..], id);
        forall r, q | Entry(r) in [items[0]] && Entry(q) in rest ensures r.id != q.id {
          var k :| 0 <= k < |items[1..]| && items[1..][k] == Entry(q);
          assert items[k + 1] == Entry(q);
        }
        JoinUnique([items[0]], rest);
      }
    }
  }

  /** What a removal leaves is in its order. */
  lemma {:induction false} WithoutInOrder(items: seq<Item>, more: seq<Item>, id: string)
    ensures Without(items + more, id) == Without(items, id) + Without(more, id)
  {
    if items == [] {
      assert items + more == more;
    } else {
      assert (items + more)[0] == items[0] && (items + more)[1..] == items[1..] + more;
      WithoutInOrder(items[1..], more, id);
      Regrouped(if items[0].Entry? && items[0].row.id == id then [] else [items[0]], Without(items[1..], id), Without(more, id));
    }
  }

  lemma AddedUnique(items: seq<Item>, row: Row)
    requires UniqueIds(items) && !HasId(items, row.id)
    ensures UniqueIds(items + [Entry(row)])
  {
  }

  /** What an operation writes over sound items has unique ids and bounded deadlines. */
  lemma DoKeepsBounds(w: Words, items: seq<Item>, op: Op)
    requires Sound(w, items) && Do(w, items, op).Wrote?
    ensures var next := Do(w, items, op).items;
            UniqueIds(next) && forall r | Entry(r) in next :: DeadlineBounded(w, r)
  {
    var next := Do(w, items, op).items;
    match op
    case AppendOp(row) => AddedUnique(items, Validate(w, row).value);
    case CasOp(id, wanted, _, _, _) =>
      var k := Seek(items, id, Some(wanted));
      assert Entry(items[k].row) in items;
      forall r | Entry(r) in next ensures DeadlineBounded(w, r) {
        if next[k] != Entry(r) { assert Entry(r) in items; }
      }
    case RemoveOp(id) => WithoutKeeps(items, id);
  }

  /** Appending, swapping and removing keep ids unique and every deadline within bounds, and
      the rows read afterwards are clean. */
  lemma AfterKeepsSound(w: Words, items: seq<Item>, op: Op)
    requires Sound(w, items)
    ensures Sound(w, After(w, items, op))
  {
    if Do(w, items, op).Wrote? {
      DoKeepsBounds(w, items, op);
      RereadMeans(w, Do(w, items, op).items);
    }
  }

  /** What is read after a write is what was written if and only if every row of it is clean. */
  lemma RereadIsIff(w: Words, items: seq<Item>)
    ensures Reread(w, items) == items <==> forall r | Entry(r) in items :: Clean(r)
  {
    if forall r | Entry(r) in items :: Clean(r) {
      CleanReread(w, items);
    } else {
      var r :| Entry(r) in items && !Clean(r);
      RereadExactly(w, items, Entry(r));
    }
  }

  /** The row of an id, if there is one. */
  ghost function RowOf(items: seq<Item>, id: string): (r: Option<Row>)
    ensures r.None? <==> !HasId(items, id)
    ensures r.Some? ==> Entry(r.value) in items && r.value.id == id
  {
    if HasId(items, id) then
      var k :| 0 <= k < |items| && items[k].Entry? && items[k].row.id == id;
      Some(items[k].row)
    else None
  }

  lemma RowOfIs(items: seq<Item>, row: Row)
    requires UniqueIds(items) && Entry(row) in items
    ensures RowOf(items, row.id) == Some(row)
  {
    var k :| 0 <= k < |items| && items[k] == Entry(row);
    var other := RowOf(items, row.id).value;
    var j :| 0 <= j < |items| && items[j] == Entry(other);
  }

  /** Items agree on an id when they hold the same rows of it. */
  lemma SameRowOf(items: seq<Item>, next: seq<Item>, id: string)
    requires UniqueIds(items) && UniqueIds(next)
    requires forall r: Row | r.id == id :: Entry(r) in items <==> Entry(r) in next
    ensures RowOf(items, id) == RowOf(next, id)
  {
    if HasId(items, id) {
      RowOfIs(next, RowOf(items, id).value);
    } else if HasId(next, id) {
      RowOfIs(items, RowOf(next, id).value);
    }
  }

  /** The swap of this id wins: it changes the row. */
  ghost predicate Wins(w: Words, items: seq<Item>, op: Op, id: string) {
    op.CasOp? && op.id == id && Do(w, items, op).Wrote?
  }

  /** What one operation does to the row of one id that is no canary: nothing, or it opens
      it, or it is a winning swap of that id. What it writes is lost exactly when a text of
      it holds a line separator. */
  lemma AfterToRow(w: Words, items: seq<Item>, op: Op, id: string)
    requires Sound(w, items) && Allowed(op) && !(CANARY <= id)
    ensures var was := RowOf(items, id);
            var now := RowOf(After(w, items, op), id);
            if was.None? then
              && (now.Some? <==> op.AppendOp? && op.row.id == id && Do(w, items, op).Wrote? && Clean(op.row))
              && (now.Some? ==> now.value.status == Open && now.value.closed == "")
            else if Wins(w, items, op, id) then
              && was.value.status == op.wanted
              && (now.Some? <==> Clean(Swapped(was.value, op.wanted, op.to, op.now, op.note)))
              && (now.Some? ==> now.value == Swapped(was.value, op.wanted, op.to, op.now, op.note))
            else now == was
  {
    AfterKeepsSound(w, items, op);
    match op
    case AppendOp(row) => AppendToRow(w, items, row, id);
    case CasOp(cid, wanted, to, at, note) => if Do(w, items, op).Wrote? { CasToRow(w, items, cid, wanted, to, at, note, id); }
    case RemoveOp(cid) => if Do(w, items, op).Wrote? { RemoveToRow(w, items, cid, id); }
  }

  lemma RemoveToRow(w: Words, items: seq<Item>, cid: string, id: string)
    requires Sound(w, items) && Remove(items, cid).Wrote? && cid != id
    ensures RowOf(After(w, items, RemoveOp(cid)), id) == RowOf(items, id)
  {
    var after := After(w, items, RemoveOp(cid));
    WithoutKeeps(items, cid);
    RereadMeans(w, Without(items, cid));
    forall r: Row | r.id == id ensures Entry(r) in items <==> Entry(r) in after {
      assert Entry(r) in Without(items, cid) <==> Entry(r) in items;
    }
    SameRowOf(items, after, id);
  }

  lemma AppendToRow(w: Words, items: seq<Item>, row: Row, id: string)
    requires Sound(w, items)
    ensures var next := After(w, items, AppendOp(row));
            if row.id == id && Append(w, items, row).Wrote? && Clean(row) then
              RowOf(items, id) == None && RowOf(next, id) == Some(Validate(w, row).value)
            else RowOf(next, id) == RowOf(items, id)
  {
    var next := After(w, items, AppendOp(row));
    AfterKeepsSound(w, items, AppendOp(row));
    if Append(w, items, row).Wrote? {
      var valid := Validate(w, row).value;
      RereadAdds(w, items, Entry(valid));
      CleanReread(w, items);
      if Clean(row) {
        if row.id == id { RowOfIs(next, valid); } else { SameRowOf(items, next, id); }
      } else {
        LeftoverNoEntries(w, valid);
        SameRowOf(items, next, id);
      }
    }
  }

  lemma CasToRow(w: Words, items: seq<Item>, cid: string, wanted: Status, to: Status, at: string, note: string, id: string)
    requires Sound(w, items) && Cas(items, cid, wanted, to, at, note).Wrote?
    ensures var was := RowOf(items, id);
            var now := RowOf(After(w, items, CasOp(cid, wanted, to, at, note)), id);
            if cid == id then
              && was.Some? && was.value.status == wanted
              && now == if Clean(Swapped(was.value, wanted, to, at, note)) then Some(Swapped(was.value, wanted, to, at, note)) else None
            else now == was
  {
    var op := CasOp(cid, wanted, to, at, note);
    var k, next, after := Seek(items, cid, Some(wanted)), Do(w, items, op).items, After(w, items, op);
    AfterKeepsSound(w, items, op);
    DoKeepsBounds(w, items, op);
    RereadMeans(w, next);
    assert Entry(items[k].row) in items;
    RowOfIs(items, items[k].row);
    assert next[k] in next && Entry(next[k].row) in next;
    if cid == id {
      if Clean(next[k].row) { RowOfIs(after, next[k].row); }
      else { OnlyOne(next, k); }
    } else {
      ElsewhereSame(items, next, k);
      assert forall r: Row | r.id == id :: Entry(r) in items <==> Entry(r) in after;
      SameRowOf(items, after, id);
    }
  }

  lemma OnlyOne(items: seq<Item>, k: nat)
    requires k < |items| && items[k].Entry? && UniqueIds(items)
    ensures forall r | Entry(r) in items && r.id == items[k].row.id :: Entry(r) == items[k]
  {
  }

  lemma ElsewhereSame(items: seq<Item>, next: seq<Item>, k: nat)
    requires k < |items| && |next| == |items| && next == items[k := next[k]]
    requires items[k].Entry? && next[k].Entry? && next[k].row.id == items[k].row.id
    ensures forall r: Row | r.id != items[k].row.id :: Entry(r) in items <==> Entry(r) in next
    ensures forall item: Item | !item.Entry? :: item in items <==> item in next
  {
    forall item: Item | !item.Entry? || item.row.id != items[k].row.id ensures item in items <==> item in next {
      if item in items {
        var j :| 0 <= j < |items| && items[j] == item;
        assert next[j] == item;
      }
      if item in next {
        var j :| 0 <= j < |next| && next[j] == item;
        assert items[j] == item;
      }
    }
  }

  /** How often the swaps of a run escalate this id. */
  ghost function Escalations(w: Words, items: seq<Item>, ops: seq<Op>, id: string): nat
    decreases |ops|
  {
    if ops == [] then 0
    else (if Wins(w, items, ops[0], id) && ops[0].to == Escalated then 1 else 0) + Escalations(w, After(w, items, ops[0]), ops[1..], id)
  }

  /** The time that the last winning swap of this id was given, if any was. */
  ghost function LastWin(w: Words, items: seq<Item>, ops: seq<Op>, id: string, before: string): string
    decreases |ops|
  {
    if ops == [] then before
    else LastWin(w, After(w, items, ops[0]), ops[1..], id,
                 if Wins(w, items, ops[0], id) && ops[0].now != "" then ops[0].now else before)
  }

  function Rank(status: Status): nat {
    match status case Open => 0 case Escalated => 1 case Closed => 2
  }

  function RankOf(row: Option<Row>): nat {
    if row.None? then 0 else Rank(row.value.status)
  }

  /** A swap of clean texts keeps its row. */
  lemma CleanSwap(row: Row, wanted: Status, to: Status, now: string, note: string)
    requires Clean(row) && CleanText(now) && CleanText(note)
    ensures Clean(Swapped(row, wanted, to, now, note))
  {
  }

  /** One step of an allowed run that writes no separator for this id. */
  lemma CleanStep(w: Words, items: seq<Item>, op: Op, id: string)
    requires Sound(w, items) && Allowed(op) && CleanFor(op, id) && !(CANARY <= id)
    ensures var was := RowOf(items, id);
            var now := RowOf(After(w, items, op), id);
            if was.None? then !Wins(w, items, op, id) && (now.None? || (now.value.status == Open && now.value.closed == ""))
            else if Wins(w, items, op, id) then
              was.value.status == op.wanted && now == Some(Swapped(was.value, op.wanted, op.to, op.now, op.note))
            else now == was
  {
    AfterToRow(w, items, op, id);
    if Wins(w, items, op, id) {
      CasToRow(w, items, op.id, op.wanted, op.to, op.now, op.note, id);
      CleanSwap(RowOf(items, id).value, op.wanted, op.to, op.now, op.note);
    }
  }

  /** What such a step does to rank and closing time. */
  lemma StepEscalates(w: Words, items: seq<Item>, op: Op, id: string, next: seq<Item>)
    requires Sound(w, items) && Allowed(op) && CleanFor(op, id) && !(CANARY <= id) && next == After(w, items, op)
    ensures RankOf(RowOf(next, id)) >= RankOf(RowOf(items, id))
    ensures Wins(w, items, op, id) && op.to == Escalated ==> RankOf(RowOf(items, id)) == 0 && RankOf(RowOf(next, id)) == 1
    ensures HasId(items, id) ==>
              HasId(next, id) && RowOf(next, id).value.closed == if Wins(w, items, op, id) && op.now != "" then op.now else RowOf(items, id).value.closed
    ensures !HasId(items, id) ==> !Wins(w, items, op, id) && (HasId(next, id) ==> RowOf(next, id).value.closed == "")
  {
    CleanStep(w, items, op, id);
  }

  /** Over every run of appends, forward swaps and canary removals, by any writers in any
      order, that write no line separator into the row of this id, whatever else the file comes
      to hold: ids stay unique and deadlines bounded; the id is escalated at most once, and not
      again after it left the open state; its row is never lost and its status never goes back;
      and its closing time is the time of its last winning swap. */
  lemma {:induction false} RunsEscalateOnce(w: Words, items: seq<Item>, ops: seq<Op>, id: string)
    requires Sound(w, items) && !(CANARY <= id)
    requires forall k :: 0 <= k < |ops| ==> Allowed(ops[k]) && CleanFor(ops[k], id)
    ensures var end := AfterAll(w, items, ops);
            && Sound(w, end) && RankOf(RowOf(end, id)) >= RankOf(RowOf(items, id))
            && Escalations(w, items, ops, id) <= (if RankOf(RowOf(items, id)) == 0 then 1 else 0)
            && (HasId(items, id) ==> HasId(end, id) && RowOf(end, id).value.closed == LastWin(w, items, ops, id, RowOf(items, id).value.closed))
            && (!HasId(items, id) && HasId(end, id) ==> RowOf(end, id).value.closed == LastWin(w, items, ops, id, ""))
    decreases |ops|
  {
    if ops != [] {
      AfterKeepsSound(w, items, ops[0]);
      StepEscalates(w, items, ops[0], id, After(w, items, ops[0]));
      RunsEscalateOnce(w, After(w, items, ops[0]), ops[1..], id);
    }
  }

  lemma SwapLoses(w: Words, row: Row, note: string)
    requires row.status == Open && note != "" && !CleanText(note)
    ensures var escalate := CasOp(row.id, Open, Escalated, "", note);
            After(w, [Entry(row)], escalate) == Leftover(w, Swapped(row, Open, Escalated, "", note)) && Wins(w, [Entry(row)], escalate, row.id)
  {
    var escalate, lost := CasOp(row.id, Open, Escalated, "", note), Swapped(row, Open, Escalated, "", note);
    assert Do(w, [Entry(row)], escalate) == Wrote([Entry(lost)]) by {
      assert Seek([Entry(row)], row.id, Some(Open)) == 0 && [Entry(row)][0 := Entry(lost)] == [Entry(lost)];
    }
    OneReread(w, Entry(lost));
  }

  lemma Reopens(w: Words, items: seq<Item>, row: Row)
    requires Validate(w, row) == Ok(row) && Clean(row) && Free(items) && NoEntries(items)
    ensures After(w, items, AppendOp(row)) == items + [Entry(row)]
  {
    RereadAdds(w, items, Entry(row));
    CleanReread(w, items);
  }

  lemma WinsAgain(w: Words, items: seq<Item>, row: Row, note: string)
    requires row.status == Open && Free(items) && NoEntries(items)
    ensures Wins(w, items + [Entry(row)], CasOp(row.id, Open, Escalated, "", note), row.id)
  {
    var all := items + [Entry(row)];
    assert forall j | 0 <= j < |items| :: all[j] in items;
    assert all[|items|] == Entry(row) && Seek(all, row.id, Some(Open)) == |items|;
  }

  lemma TwoEscalations(w: Words, items: seq<Item>, first: Op, op: Op, second: Op, id: string)
    requires Wins(w, items, first, id) && first.to == Escalated && !op.CasOp?
    requires Wins(w, After(w, After(w, items, first), op), second, id) && second.to == Escalated
    ensures Escalations(w, items, [first, op, second], id) == 2
  {
    var ops := [first, op, second];
    var left := After(w, items, first);
    assert ops[1..] == [op, second] && [op, second][1..] == [second] && [second][1..] == [];
    assert Escalations(w, After(w, left, op), [second], id) == 1;
    assert Escalations(w, left, [op, second], id) == 1;
  }

  lemma SwapLeavesFree(w: Words, row: Row, note: string)
    requires Clean(row) && note != "" && !CleanText(note) && TameText(w, note)
    ensures Free(Leftover(w, Swapped(row, Open, Escalated, "", note)))
  {
    var lost := Swapped(row, Open, Escalated, "", note);
    assert TextsOf(lost) == TextsOf(row)[8 := note];
    CleanTextsOf(row);
    forall t | t in TextsOf(lost) ensures TameText(w, t) {
      if t != note { CleanIsTame(w, t); }
    }
    LeftAllFreeIff(w, TextsOf(lost));
  }

  /** What goes wrong without that condition: a swap whose note holds a line separator loses
      the row, so that the id, if the note is tame, can be opened and escalated a second time. */
  lemma SeparatorEscalatesTwice(w: Words, row: Row, note: string)
    requires Validate(w, row) == Ok(row) && Clean(row) && row.status == Open && note != "" && !CleanText(note) && TameText(w, note)
    ensures var escalate, reopen := CasOp(row.id, Open, Escalated, "", note), AppendOp(row);
            !HasId(After(w, [Entry(row)], escalate), row.id) && Escalations(w, [Entry(row)], [escalate, reopen, escalate], row.id) == 2
  {
    var escalate, reopen := CasOp(row.id, Open, Escalated, "", note), AppendOp(row);
    var left := Leftover(w, Swapped(row, Open, Escalated, "", note));
    SwapLoses(w, row, note);
    LeftoverNoEntries(w, Swapped(row, Open, Escalated, "", note));
    SwapLeavesFree(w, row, note);
    Reopens(w, left, row);
    WinsAgain(w, left, row, note);
    TwoEscalations(w, [Entry(row)], escalate, reopen, escalate, row.id);
  }

  // -------------------------------------------------- what stops the operations

  /** On a file that nothing stops, an operation never fails: an append writes exactly if the
      row is valid and its id new, and a swap exactly if a row has that id and status. */
  lemma FreeWorks(w: Words, items: seq<Item>, op: Op)
    requires Free(items)
    ensures !Do(w, items, op).Failed? && (Do(w, items, op).Bad? ==> op.AppendOp? && Validate(w, op.row).Refused?)
    ensures op.AppendOp? && Validate(w, op.row).Ok? ==> (Do(w, items, op).Wrote? <==> !HasId(items, op.row.id))
    ensures op.CasOp? ==> (Do(w, items, op).Wrote? <==> exists r | Entry(r) in items :: r.id == op.id && r.status == op.wanted)
  {
    assert forall k | 0 <= k < |items| :: items[k] in items;
    if op.CasOp? && exists r | Entry(r) in items :: r.id == op.id && r.status == op.wanted {
      var r :| Entry(r) in items && r.id == op.id && r.status == op.wanted;
      var j :| 0 <= j < |items| && items[j] == Entry(r);
      assert Ends(items[j], op.id, Some(op.wanted));
    }
    if op.CasOp? && Do(w, items, op).Wrote? {
      var k := Seek(items, op.id, Some(op.wanted));
      assert Entry(items[k].row) in items;
    }
  }

  /** An operation leaves the file free exactly when every row it writes is tame. */
  lemma FreeAfterIff(w: Words, items: seq<Item>, op: Op)
    requires Sound(w, items) && Free(items)
    ensures Free(After(w, items, op)) <==>
            (Do(w, items, op).Wrote? ==> forall item | item in Do(w, items, op).items && item.Entry? :: Tame(w, item.row))
  {
    if Do(w, items, op).Wrote? {
      var next := Do(w, items, op).items;
      RereadFreeIff(w, next);
      WritesNoOther(w, items, op);
      forall item | item in next ensures Free(Back(w, item)) <==> (item.Entry? ==> Tame(w, item.row)) {
        assert !item.Entry? ==> item in items && Back(w, item) == [item];
      }
    }
  }

  /** An operation writes no value that was not there, and keeps those that were. */
  lemma WritesNoOther(w: Words, items: seq<Item>, op: Op)
    requires Do(w, items, op).Wrote?
    ensures forall item: Item | !item.Entry? :: item in Do(w, items, op).items <==> item in items
  {
    match op
    case AppendOp(row) =>
    case CasOp(id, wanted, _, _, _) => ElsewhereSame(items, Do(w, items, op).items, Seek(items, id, Some(wanted)));
    case RemoveOp(id) => WithoutKeeps(items, id);
  }

  /** One operation on a file that is not free: it stays so, and no id gets a row. */
  lemma SpoiledStays(w: Words, items: seq<Item>, op: Op, id: string)
    requires !Free(items)
    ensures !Free(After(w, items, op)) && (HasId(After(w, items, op), id) ==> HasId(items, id))
  {
    if Do(w, items, op).Wrote? {
      var next := Do(w, items, op).items;
      var bad :| bad in items && !bad.Entry? && !bad.Object?;
      assert bad.Stray?;
      WritesNoOther(w, items, op);
      RereadExactly(w, next, bad);
      var k0 :| 0 <= k0 < |items| && items[k0] == bad;
      assert op.CasOp?;
      var k := Seek(items, op.id, Some(op.wanted));
      if HasId(After(w, items, op), id) {
        var r := RowOf(After(w, items, op), id).value;
        RereadExactly(w, next, Entry(r));
        var j :| 0 <= j < |next| && next[j] == Entry(r);
        assert items[j].Entry? && items[j].row.id == id;
      }
    }
  }

  /** Once a stray value or a line that raises is in the file it is there for ever: over every
      run of operations it is never free again, and no id that has no row gets one. */
  lemma {:induction false} SpoiledForEver(w: Words, items: seq<Item>, ops: seq<Op>, id: string)
    requires !Free(items)
    ensures !Free(AfterAll(w, items, ops)) && (HasId(AfterAll(w, items, ops), id) ==> HasId(items, id))
    decreases |ops|
  {
    if ops != [] {
      SpoiledStays(w, items, ops[0], id);
      SpoiledForEver(w, After(w, items, ops[0]), ops[1..], id);
    }
  }

  lemma PartsOf(a: string, c: char, rest: string)
    requires CleanText(a) && Separates(c)
    ensures var t := a + [c] + rest; !CleanText(t) && FirstSeparator(t) == |a| && t[..|a|] == a && t[|a| + 1..] == rest
  {
    var t := a + [c] + rest;
    assert t[|a|] == c && t[|a|] in t;
    var k := FirstSeparator(t);
    forall i | 0 <= i < |a| ensures !Separates(t[i]) { assert t[i] == a[i] && a[i] in a; }
    forall i | 0 <= i < k ensures !Separates(t[i]) { assert t[..k][i] == t[i] && t[..k][i] in t[..k]; }
  }

  /** What a part between two separators is to the reader, the text leaves behind. */
  lemma InnerIsLeft(w: Words, a: string, c: char, part: string, d: char, b: string)
    requires CleanText(a) && Separates(c) && CleanText(part) && Separates(d)
    ensures LeftOf(w, a + [c] + (part + [d] + b)) == Inner(w, part) + Following(w, b)
  {
    PartsOf(a, c, part + [d] + b);
    PartsOf(part, d, b);
  }

  // ------------------------------------------------------------ the sweep query

  /** An owner that is the founder, whose decisions the sweep never escalates. */
  predicate FounderOwned(w: Words, founders: set<string>, row: Row) {
    w.lower(Strip(row.owner)) in founders
  }

  /** Open, and, when a time is given, past its deadline and not the founder's. */
  predicate Picks(w: Words, founders: set<string>, now: Option<Instant>, item: Item) {
    item.Entry? && item.row.status == Open && (now.Some? ==> now.value > item.row.deadline && !FounderOwned(w, founders, item.row))
  }

  function Selected(w: Words, founders: set<string>, now: Option<Instant>, items: seq<Item>): seq<Row> {
    if items == [] then []
    else (if Picks(w, founders, now, items[0]) then [items[0].row] else []) + Selected(w, founders, now, items[1..])
  }

  /** The query keeps the order of the ledger. */
  lemma {:induction false} SelectedInOrder(w: Words, founders: set<string>, now: Option<Instant>, items: seq<Item>, more: seq<Item>)
    ensures Selected(w, founders, now, items + more) == Selected(w, founders, now, items) + Selected(w, founders, now, more)
  {
    if items == [] {
      assert items + more == more;
    } else {
      assert (items + more)[0] == items[0] && (items + more)[1..] == items[1..] + more;
      SelectedInOrder(w, founders, now, items[1..], more);
      Regrouped(if Picks(w, founders, now, items[0]) then [items[0].row] else [], Selected(w, founders, now, items[1..]),
                Selected(w, founders, now, more));
    }
  }

  /** It finds an open row exactly when no time is given, or it is past its deadline and not the
      founder's. */
  lemma {:induction false} SelectedExactly(w: Words, founders: set<string>, now: Option<Instant>, items: seq<Item>, r: Row)
    ensures r in Selected(w, founders, now, items) <==>
            Entry(r) in items && r.status == Open && (now.Some? ==> now.value > r.deadline && !FounderOwned(w, founders, r))
  {
    if items != [] {
      SelectedExactly(w, founders, now, items[1..], r);
      assert items == [items[0]] + items[1..];
    }
  }
}
