/** The loop of the drain over the ledger file, and the number it reports. */
module RequestDrainer {
  import opened Outcome
  import opened HandoffLedger
  import opened LedgerFile
  import opened RequestLog
  import opened RequestDrain
  import opened Utf8

  /** How many rows the ledger takes from the lines that a drain passes. */
  function AddedFrom(t: Tools, items: seq<Item>, lines: seq<string>, i: nat, up: nat -> bool): nat
    requires i <= |lines|
    decreases |lines| - i
  {
    if i == |lines| || !FateOf(t, items, lines[i], up(i)).Passed? then 0
    else AddedBy(t, items, lines[i]) + AddedFrom(t, ItemsPast(t, items, lines[i]), lines, i + 1, up)
  }

  function AddedBy(t: Tools, items: seq<Item>, line: string): nat {
    if t.wanted(line).Asks? && Append(t.words, items, t.wanted(line).row).Wrote? then 1 else 0
  }

  function RowCount(items: seq<Item>): nat {
    if items == [] then 0 else (if items[0].Entry? then 1 else 0) + RowCount(items[1..])
  }

  lemma {:induction false} RowCountJoin(a: seq<Item>, b: seq<Item>)
    ensures RowCount(a + b) == RowCount(a) + RowCount(b)
  {
    if a == [] {
      assert a + b == b;
    } else {
      assert (a + b)[0] == a[0] && (a + b)[1..] == a[1..] + b;
      RowCountJoin(a[1..], b);
    }
  }

  lemma {:induction false} NoEntriesCount(items: seq<Item>)
    requires NoEntries(items)
    ensures RowCount(items) == 0
  {
    if items != [] {
      assert items[0] in items;
      forall item | item in items[1..] ensures !item.Entry? { assert item in items; }
      NoEntriesCount(items[1..]);
    }
  }

  /** The number reported is that of the new rows exactly when no row taken was lost again. */
  lemma {:induction false} AddedIff(t: Tools, items: seq<Item>, lines: seq<string>, i: nat, up: nat -> bool)
    requires i <= |lines| && Sound(t.words, items) && ValidTools(t)
    ensures var r := DrainFrom(t, items, lines, i, up);
            var added := AddedFrom(t, items, lines, i, up);
            && RowCount(r.items) <= RowCount(items) + added
            && (RowCount(r.items) == RowCount(items) + added <==> LosesNone(t, items, lines, i, up))
    decreases |lines| - i
  {
    if i < |lines| && FateOf(t, items, lines[i], up(i)).Passed? {
      PassKeeps(t, items, lines[i], "");
      PassCounts(t, items, lines[i]);
      AddedIff(t, ItemsPast(t, items, lines[i]), lines, i + 1, up);
    }
  }

  lemma PassCounts(t: Tools, items: seq<Item>, line: string)
    requires Sound(t.words, items) && ValidTools(t)
    ensures RowCount(ItemsPast(t, items, line)) ==
            RowCount(items) + if t.wanted(line).Asks? && !Clean(t.wanted(line).row) then 0 else AddedBy(t, items, line)
  {
    if AddedBy(t, items, line) == 1 {
      var row := t.wanted(line).row;
      AppendAdds(t.words, items, row);
      RowCountJoin(items, Back(t.words, Entry(row)));
      LeftoverNoEntries(t.words, row);
      if Clean(row) { assert RowCount([Entry(row)]) == 1 + RowCount([]); } else { NoEntriesCount(Leftover(t.words, row)); }
    }
  }

  /** Every row that the drain has the ledger take is clean. */
  predicate LosesNone(t: Tools, items: seq<Item>, lines: seq<string>, i: nat, up: nat -> bool)
    requires i <= |lines|
    decreases |lines| - i
  {
    i == |lines| || !FateOf(t, items, lines[i], up(i)).Passed?
    || ((AddedBy(t, items, lines[i]) == 1 ==> Clean(t.wanted(lines[i]).row)) && LosesNone(t, ItemsPast(t, items, lines[i]), lines, i + 1, up))
  }

  class Drainer {
    const t: Tools
    const ledger: LedgerFile.Ledger
    var log: Option<Bytes>
    var cursor: Cursor
    ghost var covered: seq<string>

    constructor (t: Tools, ledger: LedgerFile.Ledger)
      ensures this.t == t && this.ledger == ledger && log == None && cursor == Cursor(0, "") && covered == []
    {
      this.t, this.ledger, log, cursor, covered := t, ledger, None, Cursor(0, ""), [];
    }

    /** The ledger file is one that the ledger has written, and both read words alike. */
    ghost predicate Valid()
      reads this, ledger
    {
      Faithful(ledger.store) && t.words == ledger.store.words && AllSettled(ledger.store, Stored())
    }

    ghost function Stored(): seq<Item>
      reads this, ledger
    {
      ReadAll(ledger.store, ledger.text)
    }

    ghost function Contents(): Desk
      reads this, ledger
    {
      Desk(Stored(), log, cursor, covered)
    }

    /** An append that fails when it writes: it gets there if nothing stops it before. */
    method TryAppend(id: Option<string>) returns (did: Did)
      ensures did == Unwritten(Stored(), id)
    {
      var reading := ledger.ReadItems();
      if reading.Raised? { return if reading.error == ValueError then Bad else Failed; }
      if id.Some? {
        var k := Ledger.Scan(reading.items, id.value, None);
        return if k == |reading.items| then Bad else if reading.items[k].Stray? then Failed else Kept;
      }
      var _, _, failed := Ledger.Others(reading.items, "");
      return if failed then Failed else Bad;
    }

    /** One line of the log; `up` says whether the lock and the disk work. */
    method DrainLine(line: string, up: bool) returns (fate: Fate, added: nat)
      requires Valid()
      modifies ledger
      ensures Valid() && fate == FateOf(t, old(Stored()), line, up)
      ensures Stored() == if fate.Passed? then ItemsPast(t, old(Stored()), line) else old(Stored())
      ensures added == if fate.Passed? then AddedBy(t, old(Stored()), line) else 0
    {
      match t.wanted(line)
      case Raises => return Ended, 0;
      case Undated => return Held, 0;
      case Rejected => return Passed, 0;
      case Unwritable(id) =>
        if !up { return Held, 0; }
        var did := TryAppend(id);
        return if did.Failed? then Held else Passed, 0;
      case Asks(row) =>
        if !up { return Held, 0; }
        OnFileReads(ledger.store, ledger.text, AppendOp(row));
        var did := ledger.AppendHandoff(row);
        return if did.Failed? then Held else Passed, if did.Wrote? then 1 else 0;
    }

    method DrainLines(lines: seq<string>, start: nat, up: nat -> bool) returns (count: nat, i: nat, raised: bool)
      requires Valid() && start <= |lines|
      modifies ledger
      ensures Valid() && Drained(Stored(), i, raised) == DrainFrom(t, old(Stored()), lines, start, up)
      ensures count == AddedFrom(t, old(Stored()), lines, start, up)
    {
      count, i, raised := 0, start, false;
      ghost var end := DrainFrom(t, Stored(), lines, start, up);
      ghost var total := AddedFrom(t, Stored(), lines, start, up);
      while i < |lines|
        invariant start <= i <= |lines| && !raised && Valid()
        invariant end == DrainFrom(t, Stored(), lines, i, up)
        invariant total == count + AddedFrom(t, Stored(), lines, i, up)
      {
        var fate, added := DrainLine(lines[i], up(i));
        if fate.Ended? { return count, i, true; }
        if fate.Held? { return; }
        count := count + added;
        i := i + 1;
      }
    }

    /** One tick; a refusal is an error that nobody caught. */
    method DrainOpenRequests(up: nat -> bool, saved: bool) returns (count: Result<nat>)
      requires Valid()
      modifies this, ledger
      ensures Valid() && Contents() == Tick(t, old(Contents()), up, saved)
      ensures var d := old(Contents());
              var start := StartOf(t, LinesOf(d), d.cursor);
              if d.log.None? then count == Ok(0)
              else if !Drains(d) || DrainFrom(t, d.items, LinesOf(d), start, up).raised then count == Refused
              else count == Ok(AddedFrom(t, d.items, LinesOf(d), start, up))
    {
      if log.None? { return Ok(0); }
      var text := Decode(log.value);
      if text.None? { return Refused; }
      var lines := RequestLines(text.value);
      var added, i, raised := DrainLines(lines, if Desync(t, lines, cursor) then 0 else cursor.line, up);
      if raised { return Refused; }
      if saved {
        cursor := Cursor(i, if i > 0 then t.anchor(lines[i - 1]) else "");
        covered := lines[..i];
      }
      return Ok(added);
    }
  }
}
