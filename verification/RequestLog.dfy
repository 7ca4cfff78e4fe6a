/** The open-request log: bytes that others append to, and the complete lines in it. */
module RequestLog {
  import opened Outcome
  import opened TextLines
  import opened Utf8

  /** One past the last newline, or 0. */
  function AfterLastNewline(raw: string): (k: nat)
    ensures k <= |raw|
  {
    if raw == "" then 0
    else if raw[|raw| - 1] == NEWLINE then |raw|
    else AfterLastNewline(raw[..|raw| - 1])
  }

  /** The complete non-blank lines of the log: a torn last line is left for later. */
  function RequestLines(raw: string): seq<string> {
    LinesIn(raw[..AfterLastNewline(raw)])
  }

  lemma {:induction false} LastNewlineShifts(raw: string, k: nat)
    requires k < |raw| && raw[k] == NEWLINE
    ensures AfterLastNewline(raw) == k + 1 + AfterLastNewline(raw[k + 1..])
    decreases |raw|
  {
    var n := |raw|;
    if raw[n - 1] != NEWLINE {
      LastNewlineShifts(raw[..n - 1], k);
      assert raw[k + 1..][..n - 1 - (k + 1)] == raw[..n - 1][k + 1..];
    }
  }

  lemma {:induction false} NoNewlineNoLast(raw: string)
    requires NEWLINE !in raw
    ensures AfterLastNewline(raw) == 0
  {
    if raw != "" { NoNewlineNoLast(raw[..|raw| - 1]); }
  }

  lemma SafeSlices(raw: string, k: nat, n: nat)
    requires k < n <= |raw|
    ensures raw[..n][..k] == raw[..k] && raw[..n][k] == raw[k] && raw[..n][k + 1..] == raw[k + 1..][..n - (k + 1)]
  {
  }

  /** The first line of the log and the lines after it. */
  lemma FirstLineThenRest(raw: string, k: nat)
    requires k < |raw| && raw[k] == NEWLINE && NEWLINE !in raw[..k]
    ensures RequestLines(raw) == (if Blank(raw[..k]) then [] else [raw[..k]]) + RequestLines(raw[k + 1..])
  {
    LastNewlineShifts(raw, k);
    var n := AfterLastNewline(raw);
    SafeSlices(raw, k, n);
    FirstLine(raw[..n], k);
  }

  lemma PrefixOfLonger(head: seq<string>, xs: seq<string>, ys: seq<string>)
    requires xs <= ys
    ensures head + xs <= head + ys
  {
  }

  lemma NoCompleteLine(raw: string)
    requires NEWLINE !in raw
    ensures RequestLines(raw) == []
  {
    NoNewlineNoLast(raw);
    assert raw[..0] == "";
    assert Split("") == [""] && NonBlank([""]) == [];
  }

  /** Appending to the log, torn or not, only adds lines after those that are complete. */
  lemma {:induction false} AppendExtendsLines(raw: string, chunk: string, all: string)
    requires all == raw + chunk
    ensures RequestLines(raw) <= RequestLines(all)
    decreases |raw|
  {
    if NEWLINE in raw {
      var k := FirstNewline(raw);
      PrefixSlices(raw, chunk, k);
      FirstLineThenRest(raw, k);
      FirstLineThenRest(all, k);
      AppendExtendsLines(raw[k + 1..], chunk, all[k + 1..]);
      PrefixOfLonger(if Blank(raw[..k]) then [] else [raw[..k]], RequestLines(raw[k + 1..]), RequestLines(all[k + 1..]));
    } else {
      NoCompleteLine(raw);
    }
  }

  /** Whether the log is UTF-8 to its end; otherwise reading it raises. */
  predicate Legible(raw: Bytes) {
    Decode(raw).Some?
  }

  function LogLines(raw: Bytes): seq<string>
    requires Legible(raw)
  {
    RequestLines(Decode(raw).value)
  }

  /** Exactly when a log that only grows can be read: whatever beginning of it could be read,
      it can be if and only if the bytes after that can, wherever chunks were torn; and then
      the lines that were complete are still its first ones. */
  lemma LogGrowsIff(raw: Bytes, n: nat)
    requires n <= |raw| && Legible(raw[..n])
    ensures Legible(raw) <==> Legible(raw[n..])
    ensures Legible(raw) ==> LogLines(raw[..n]) <= LogLines(raw)
  {
    assert raw == raw[..n] + raw[n..];
    DecodeAppended(raw[..n], raw[n..], raw);
    if Legible(raw) { AppendExtendsLines(Decode(raw[..n]).value, Decode(raw[n..]).value, Decode(raw).value); }
  }
}
