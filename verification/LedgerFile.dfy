/** The ledger as a file: every operation reads all of it, and writes one line of JSON per
    row. JSON leaves three line separators in a text as they are, and reading splits there; a
    piece of a line between two of them may even be JSON of its own. */
module LedgerFile {
  import opened Outcome
  import opened TextLines
  import opened HandoffLedger
  import J = Json

  // --------------------------------------------------------------- writing lines

  /** What Python says about texts, and its writer of instants. */
  datatype Store = Store(words: Words, iso: Instant -> string)

  function StatusText(status: Status): string {
    match status case Open => "open" case Closed => "closed" case Escalated => "escalated"
  }

  /** The fields after the id, in the order of a new row. */
  function Texts(s: Store, row: Row): seq<(string, string)> {
    [("from_agent", row.from), ("owner_agent", row.owner), ("action", row.action), ("expected_artifact", row.artifact),
     ("opened_ts_utc", row.openedAt), ("deadline_utc", s.iso(row.deadline)), ("status", StatusText(row.status)),
     ("closed_ts_utc", row.closed), ("evidence_ptr", row.evidence), ("note", row.note)]
  }

  function Key(name: string): string {
    ", \"" + name + "\": \""
  }

  /** What follows the closing quote of a text: the other fields, and the bracket. */
  function RestOf(texts: seq<(string, string)>): string {
    if texts == [] then "}" else Key(texts[0].0) + (J.Body(texts[0].1) + RestOf(texts[1..]))
  }

  const OPENING := "{\"handoff_id\": \""

  function LineOf(s: Store, row: Row): string {
    OPENING + (J.Body(row.id) + RestOf(Texts(s, row)))
  }

  /** A value that is no row is written as its own text. */
  function ItemLine(s: Store, item: Item): string {
    match item
    case Entry(row) => LineOf(s, row)
    case Object(text) => text
    case Stray(text) => text
    case Poison(_) => ""
  }

  function FileOf(s: Store, items: seq<Item>): string {
    if items == [] then "" else ItemLine(s, items[0]) + [NEWLINE] + FileOf(s, items[1..])
  }

  // --------------------------------------------------------------- reading lines

  /** Where Python's `splitlines` splits. */
  predicate Breaks(c: char) {
    '\U{000A}' <= c <= '\U{000D}' || '\U{001C}' <= c <= '\U{001E}' || Separates(c)
  }

  predicate Unbroken(text: string) {
    forall c | c in text :: !Breaks(c)
  }

  function FirstBreak(text: string): (k: nat)
    requires !Unbroken(text)
    ensures k < |text| && Breaks(text[k]) && Unbroken(text[..k])
  {
    if Breaks(text[0]) then 0 else 1 + FirstBreak(text[1..])
  }

  function Pieces(text: string): seq<string>
    decreases |text|
  {
    if Unbroken(text) then [text]
    else [text[..FirstBreak(text)]] + Pieces(text[FirstBreak(text) + 1..])
  }

  /** What one piece of the file is to its reader; a piece that is no JSON is passed over. */
  function ItemOf(w: Words, piece: string): seq<Item> {
    var line := Strip(piece);
    if line == "" then [] else match w.loads(line) case Some(item) => [item] case None => []
  }

  function Items(w: Words, pieces: seq<string>): seq<Item> {
    if pieces == [] then [] else ItemOf(w, pieces[0]) + Items(w, pieces[1..])
  }

  /** Everything in the file, in its order; the reader itself raises at the first line that the
      parser raises on. */
  function ReadAll(s: Store, text: string): seq<Item> {
    Items(s.words, Pieces(text))
  }

  /** What may follow the closing quote of a text within a line: the bracket at its end, or the
      next field at least up to the first letter of its name. */
  predicate Goes(more: string) {
    more == "}" || (|more| > 3 && more[..3] == ", \"" && 'a' <= more[3] <= 'z')
  }

  /** The text of a value that is no row reads back as that value. */
  predicate Settled(s: Store, item: Item) {
    match item
    case Object(text) => text != "" && Strip(text) == text && Unbroken(text) && s.words.loads(text) == Some(item)
    case Stray(text) => text != "" && Strip(text) == text && Unbroken(text) && s.words.loads(text) == Some(item)
    case _ => true
  }

  /** What is asked of Python's JSON and dates (section 2 of RFC 8259):
      a written line reads back as its row;
      what an object of texts begins with is no JSON;
      a piece that starts inside a text and goes on past its quote is no JSON, and the parser
      raises on it exactly if it does before the quote, because a bare name follows;
      and a part of a text, which has no quotes but escaped ones, is no row, and the text of a
      value in it reads back. */
  ghost predicate Faithful(s: Store) {
    && (forall x :: CleanText(s.iso(x)))
    && (forall row :: s.words.loads(LineOf(s, row)) == Some(Entry(row)))
    && (forall text, more :: IsRow(s, text + more) && !Blank(more) ==> s.words.loads(text).None?)
    && (forall part, more :: Goes(more) ==> ItemOf(s.words, J.Body(part) + more) == Last(s.words, part))
    && (forall part :: s.words.loads(Strip(Written(part))).Some? ==>
          !IsRow(s, Strip(Written(part))) && Settled(s, s.words.loads(Strip(Written(part))).value))
  }

  predicate IsRow(s: Store, text: string) {
    s.words.loads(text).Some? && s.words.loads(text).value.Entry?
  }

  // ------------------------------------------------------------ which lines break

  lemma JoinUnbroken(a: string, b: string)
    ensures Unbroken(a + b) <==> Unbroken(a) && Unbroken(b)
  {
    if Unbroken(a + b) {
      forall c | c in a ensures !Breaks(c) { assert c in a + b; }
      forall c | c in b ensures !Breaks(c) { assert c in a + b; }
    }
  }

  lemma EscapeUnbroken(c: char)
    ensures Unbroken(J.Escaped(c)) <==> !Separates(c)
    ensures Separates(c) ==> J.Escaped(c) == [c]
  {
    if Separates(c) { assert c in [c]; }
  }

  lemma {:induction false} BodyUnbroken(t: string)
    ensures Unbroken(J.Body(t)) <==> CleanText(t)
  {
    if t != "" {
      EscapeUnbroken(t[0]);
      JoinUnbroken(J.Escaped(t[0]), J.Body(t[1..]));
      BodyUnbroken(t[1..]);
      assert t == [t[0]] + t[1..];
    }
  }

  predicate PlainNames(texts: seq<(string, string)>) {
    forall k | 0 <= k < |texts| :: Unbroken(texts[k].0) && texts[k].0 != "" && 'a' <= texts[k].0[0] <= 'z'
  }

  lemma KeyUnbroken(name: string)
    requires Unbroken(name)
    ensures Unbroken(Key(name))
  {
    JoinUnbroken(", \"", name);
    JoinUnbroken(", \"" + name, "\": \"");
  }

  predicate CleanAll(texts: seq<(string, string)>) {
    forall k | 0 <= k < |texts| :: CleanText(texts[k].1)
  }

  lemma {:induction false} RestUnbroken(texts: seq<(string, string)>)
    requires PlainNames(texts)
    ensures Unbroken(RestOf(texts)) <==> CleanAll(texts)
  {
    if texts != [] {
      var first, tail := texts[0], texts[1..];
      KeyUnbroken(first.0);
      JoinUnbroken(Key(first.0), J.Body(first.1) + RestOf(tail));
      JoinUnbroken(J.Body(first.1), RestOf(tail));
      BodyUnbroken(first.1);
      RestUnbroken(tail);
      assert forall k | 0 < k < |texts| :: texts[k] == tail[k - 1];
    }
  }

  lemma NamesArePlain(s: Store, row: Row)
    ensures PlainNames(Texts(s, row))
  {
  }

  lemma CleanTexts(s: Store, row: Row)
    requires CleanText(s.iso(row.deadline))
    ensures Clean(row) <==> CleanText(row.id) && CleanAll(Texts(s, row))
  {
    var texts := Texts(s, row);
    assert |texts| == 10 && texts[0].1 == row.from && texts[1].1 == row.owner && texts[2].1 == row.action && texts[3].1 == row.artifact;
    assert texts[4].1 == row.openedAt && texts[5].1 == s.iso(row.deadline) && texts[6].1 == StatusText(row.status);
    assert texts[7].1 == row.closed && texts[8].1 == row.evidence && texts[9].1 == row.note;
    assert CleanText(StatusText(row.status));
  }

  lemma OpeningUnbroken(rest: string)
    ensures Unbroken(OPENING + rest) <==> Unbroken(rest)
  {
    JoinUnbroken(OPENING, rest);
  }

  lemma TailUnbroken(id: string, texts: seq<(string, string)>)
    requires PlainNames(texts)
    ensures Unbroken(J.Body(id) + RestOf(texts)) <==> CleanText(id) && CleanAll(texts)
  {
    JoinUnbroken(J.Body(id), RestOf(texts));
    BodyUnbroken(id);
    RestUnbroken(texts);
  }

  /** A line stays whole exactly when no text of its row holds a line separator. */
  lemma LineUnbrokenIff(s: Store, row: Row)
    requires Faithful(s)
    ensures Unbroken(LineOf(s, row)) <==> Clean(row)
  {
    NamesArePlain(s, row);
    OpeningUnbroken(J.Body(row.id) + RestOf(Texts(s, row)));
    TailUnbroken(row.id, Texts(s, row));
    CleanTexts(s, row);
  }

  // --------------------------------------------------- the pieces of a broken line

  lemma OnePiece(s: Store, text: string)
    requires Unbroken(text)
    ensures ReadAll(s, text) == ItemOf(s.words, text)
  {
    assert Items(s.words, [text]) == ItemOf(s.words, text) + Items(s.words, []);
  }

  lemma FirstBreakIs(text: string, k: nat)
    requires k < |text| && Breaks(text[k]) && Unbroken(text[..k])
    ensures !Unbroken(text) && FirstBreak(text) == k
  {
    assert text[k] in text;
    var j := FirstBreak(text);
    forall i | 0 <= i < j ensures !Breaks(text[i]) { assert text[..j][i] == text[i] && text[..j][i] in text[..j]; }
    forall i | 0 <= i < k ensures !Breaks(text[i]) { assert text[..k][i] == text[i] && text[..k][i] in text[..k]; }
  }

  lemma PiecesAt(text: string, k: nat)
    requires k < |text| && Breaks(text[k]) && Unbroken(text[..k])
    ensures Pieces(text) == [text[..k]] + Pieces(text[k + 1..])
  {
    FirstBreakIs(text, k);
  }

  lemma Around(a: string, c: char, b: string, j: nat)
    requires j < |a|
    ensures var all := a + [c] + b;
            all[j] == a[j] && all[..j] == a[..j] && all[j + 1..] == a[j + 1..] + [c] + b
  {
  }

  lemma AtEnd(a: string, c: char, b: string)
    ensures var all := a + [c] + b;
            all[|a|] == c && all[..|a|] == a && all[|a| + 1..] == b
  {
  }

  lemma {:induction false} PiecesSplit(a: string, c: char, b: string, all: string)
    requires Breaks(c) && all == a + [c] + b
    ensures Pieces(all) == Pieces(a) + Pieces(b)
    decreases |a|
  {
    if Unbroken(a) {
      AtEnd(a, c, b);
      PiecesAt(all, |a|);
    } else {
      var j := FirstBreak(a);
      Around(a, c, b, j);
      PiecesAt(a, j);
      PiecesAt(all, j);
      PiecesSplit(a[j + 1..], c, b, all[j + 1..]);
      Regrouped([a[..j]], Pieces(a[j + 1..]), Pieces(b));
    }
  }

  lemma {:induction false} ItemsJoin(w: Words, a: seq<string>, b: seq<string>)
    ensures Items(w, a + b) == Items(w, a) + Items(w, b)
  {
    if a == [] {
      assert a + b == b;
    } else {
      ItemsJoin(w, a[1..], b);
      assert (a + b)[0] == a[0] && (a + b)[1..] == a[1..] + b;
      Regrouped(ItemOf(w, a[0]), Items(w, a[1..]), Items(w, b));
    }
  }

  lemma ReadSplit(s: Store, a: string, c: char, b: string, all: string)
    requires Breaks(c) && all == a + [c] + b
    ensures ReadAll(s, all) == ReadAll(s, a) + ReadAll(s, b)
  {
    PiecesSplit(a, c, b, all);
    ItemsJoin(s.words, Pieces(a), Pieces(b));
  }

  lemma {:induction false} WrittenUnbroken(t: string)
    ensures Unbroken(Written(t)) <==> CleanText(t)
  {
    if t != "" {
      EscapeUnbroken(t[0]);
      JoinUnbroken(J.Escaped(t[0]), Written(t[1..]));
      WrittenUnbroken(t[1..]);
      assert t == [t[0]] + t[1..];
    }
  }

  lemma Outward(e: string, part: string, c: char, rest: string)
    ensures e + (part + [c] + rest) == (e + part) + [c] + rest
  {
  }

  /** A text with a separator is written as the part before it, the separator and the rest. */
  lemma {:induction false} BodySplit(t: string, k: nat)
    requires k < |t| && Separates(t[k])
    ensures J.Body(t) == Written(t[..k]) + [t[k]] + J.Body(t[k + 1..])
  {
    if k == 0 {
      EscapeUnbroken(t[0]);
      assert t[..0] == "";
    } else {
      BodySplit(t[1..], k - 1);
      assert t[..k][0] == t[0] && t[..k][1..] == t[1..][..k - 1] && t[1..][k..] == t[k + 1..];
      Outward(J.Escaped(t[0]), Written(t[1..][..k - 1]), t[k], J.Body(t[k + 1..]));
    }
  }

  function Values(texts: seq<(string, string)>): seq<string> {
    if texts == [] then [] else [texts[0].1] + Values(texts[1..])
  }

  lemma Grouped(key: string, part: string, c: char, body: string, rest: string)
    ensures key + ((part + [c] + body) + rest) == (key + part) + [c] + (body + rest)
  {
  }

  lemma FirstUnclean(w: Words, first: (string, string), tail: seq<(string, string)>)
      returns (piece: string, c: char, u: string)
    requires Unbroken(first.0) && !CleanText(first.1)
    ensures Key(first.0) + (J.Body(first.1) + RestOf(tail)) == piece + [c] + (J.Body(u) + RestOf(tail))
    ensures Unbroken(piece) && Separates(c) && Key(first.0) <= piece
    ensures LeftOf(w, first.1) == Following(w, u)
  {
    var k := FirstSeparator(first.1);
    c, u := first.1[k], first.1[k + 1..];
    var key, part := Key(first.0), Written(first.1[..k]);
    piece := key + part;
    BodySplit(first.1, k);
    WrittenUnbroken(first.1[..k]);
    KeyUnbroken(first.0);
    JoinUnbroken(key, part);
    Grouped(key, part, c, J.Body(u), RestOf(tail));
  }

  lemma KeyGoes(name: string, rest: string)
    requires name != "" && 'a' <= name[0] <= 'z'
    ensures Goes(Key(name) + rest)
  {
    var more := Key(name) + rest;
    assert more[..3] == ", \"" && more[3] == name[0];
  }

  lemma LongerKey(key: string, body: string, piece: string, c: char, tail: string)
    ensures key + (body + (piece + [c] + tail)) == (key + (body + piece)) + [c] + tail
  {
  }

  /** Up to the first separator in the fields from here on, and what follows it. */
  lemma {:induction false} SplitRest(w: Words, texts: seq<(string, string)>)
      returns (piece: string, c: char, u: string, more: seq<(string, string)>)
    requires PlainNames(texts) && !CleanAll(texts)
    ensures RestOf(texts) == piece + [c] + (J.Body(u) + RestOf(more)) && Unbroken(piece) && Separates(c)
    ensures texts != [] && Key(texts[0].0) <= piece && PlainNames(more)
    ensures LeftOfAll(w, Values(texts)) == Following(w, u) + LeftOfAll(w, Values(more))
  {
    var first, tail := texts[0], texts[1..];
    assert texts == [first] + tail;
    if !CleanText(first.1) {
      piece, c, u := FirstUnclean(w, first, tail);
      more := tail;
    } else {
      assert !CleanAll(tail);
      var rest;
      rest, c, u, more := SplitRest(w, tail);
      var key, body := Key(first.0), J.Body(first.1);
      piece := key + (body + rest);
      LongerKey(key, body, rest, c, J.Body(u) + RestOf(more));
      KeyUnbroken(first.0);
      BodyUnbroken(first.1);
      JoinUnbroken(body, rest);
      JoinUnbroken(key, body + rest);
    }
    assert Values(texts)[0] == first.1 && Values(texts)[1..] == Values(tail);
  }

  lemma InnerReads(s: Store, part: string)
    requires Faithful(s) && CleanText(part)
    ensures ReadAll(s, Written(part)) == Inner(s.words, part)
  {
    WrittenUnbroken(part);
    OnePiece(s, Written(part));
  }

  lemma LastReads(s: Store, t: string, more: string)
    requires Faithful(s) && CleanText(t) && Unbroken(more) && Goes(more)
    ensures ReadAll(s, J.Body(t) + more) == Last(s.words, t)
  {
    BodyUnbroken(t);
    JoinUnbroken(J.Body(t), more);
    OnePiece(s, J.Body(t) + more);
  }

  lemma RestGoes(texts: seq<(string, string)>)
    requires PlainNames(texts)
    ensures Goes(RestOf(texts))
  {
    if texts != [] { KeyGoes(texts[0].0, J.Body(texts[0].1) + RestOf(texts[1..])); }
  }

  lemma {:induction false} CleanLeaves(w: Words, texts: seq<(string, string)>)
    requires CleanAll(texts)
    ensures LeftOfAll(w, Values(texts)) == []
  {
    if texts != [] {
      assert Values(texts)[0] == texts[0].1 && Values(texts)[1..] == Values(texts[1..]);
      CleanLeaves(w, texts[1..]);
    }
  }

  lemma SplitWithin(s: Store, part: string, c: char, tail: string, rest: string)
    requires Breaks(c)
    ensures ReadAll(s, (part + [c] + tail) + rest) == ReadAll(s, part) + ReadAll(s, tail + rest)
  {
    var all := (part + [c] + tail) + rest;
    assert all == part + [c] + (tail + rest);
    ReadSplit(s, part, c, tail + rest, all);
  }

  lemma SplitBeyond(s: Store, body: string, piece: string, c: char, rest: string)
    requires Breaks(c)
    ensures ReadAll(s, body + (piece + [c] + rest)) == ReadAll(s, body + piece) + ReadAll(s, rest)
  {
    var all := body + (piece + [c] + rest);
    assert all == (body + piece) + [c] + rest;
    ReadSplit(s, body + piece, c, rest, all);
  }

  lemma AfterPart(s: Store, t: string, rest: string, k: nat)
    requires Faithful(s) && !CleanText(t) && k == FirstSeparator(t)
    ensures ReadAll(s, J.Body(t) + rest) == Inner(s.words, t[..k]) + ReadAll(s, J.Body(t[k + 1..]) + rest)
  {
    BodySplit(t, k);
    SplitWithin(s, Written(t[..k]), t[k], J.Body(t[k + 1..]), rest);
    InnerReads(s, t[..k]);
  }

  lemma AfterLast(s: Store, t: string, piece: string, c: char, rest: string)
    requires Faithful(s) && CleanText(t) && Unbroken(piece) && Goes(piece) && Separates(c)
    ensures ReadAll(s, J.Body(t) + (piece + [c] + rest)) == Last(s.words, t) + ReadAll(s, rest)
  {
    SplitBeyond(s, J.Body(t), piece, c, rest);
    LastReads(s, t, piece);
  }

  lemma KeyLeads(name: string, piece: string)
    requires name != "" && 'a' <= name[0] <= 'z' && Key(name) <= piece
    ensures Goes(piece)
  {
    KeyGoes(name, piece[|Key(name)|..]);
    assert piece == Key(name) + piece[|Key(name)|..];
  }

  /** From right after a separator inside a text, reading finds what that text and the fields
      after it leave, and nothing else. */
  lemma {:induction false} FollowingReads(s: Store, t: string, texts: seq<(string, string)>, all: string)
    requires Faithful(s) && PlainNames(texts) && all == J.Body(t) + RestOf(texts)
    ensures ReadAll(s, all) == Following(s.words, t) + LeftOfAll(s.words, Values(texts))
    decreases |all|
  {
    if !CleanText(t) {
      var k := FirstSeparator(t);
      AfterPart(s, t, RestOf(texts), k);
      BodySplit(t, k);
      FollowingReads(s, t[k + 1..], texts, J.Body(t[k + 1..]) + RestOf(texts));
      Regrouped(Inner(s.words, t[..k]), Following(s.words, t[k + 1..]), LeftOfAll(s.words, Values(texts)));
    } else if CleanAll(texts) {
      RestUnbroken(texts);
      RestGoes(texts);
      LastReads(s, t, RestOf(texts));
      CleanLeaves(s.words, texts);
    } else {
      var piece, c, u, more := SplitRest(s.words, texts);
      KeyLeads(texts[0].0, piece);
      AfterLast(s, t, piece, c, J.Body(u) + RestOf(more));
      FollowingReads(s, u, more, J.Body(u) + RestOf(more));
    }
  }

  lemma {:induction false} RestEnds(texts: seq<(string, string)>)
    ensures RestOf(texts) != "" && RestOf(texts)[|RestOf(texts)| - 1] == '}'
  {
    if texts != [] { RestEnds(texts[1..]); }
  }

  lemma LineShape(s: Store, row: Row)
    ensures var line := LineOf(s, row);
            line != "" && line[0] == '{' && line[|line| - 1] == '}' && Strip(line) == line
  {
    RestEnds(Texts(s, row));
  }

  lemma {:induction false} StripOfFirst(p: string)
    requires p != "" && !IsSpace(p[0])
    ensures Strip(p) != "" && Strip(p) <= p
    decreases |p|
  {
    if IsSpace(p[|p| - 1]) { StripOfFirst(p[..|p| - 1]); }
  }

  /** The first piece of a broken line is no JSON, because the whole line is a row. */
  lemma HeadReads(s: Store, row: Row, line: string, head: string)
    requires Faithful(s) && line == LineOf(s, row) && head <= line && 0 < |head| < |line| && Unbroken(head)
    ensures ReadAll(s, head) == []
  {
    LineShape(s, row);
    StripOfFirst(head);
    OnePiece(s, head);
    NotBegun(s, line, Strip(head));
  }

  lemma NotBegun(s: Store, line: string, head: string)
    requires Faithful(s) && IsRow(s, line) && head <= line && |head| < |line| && line[|line| - 1] == '}'
    ensures s.words.loads(head).None?
  {
    var more := line[|head|..];
    assert head + more == line;
    assert more[|more| - 1] == '}' && more[|more| - 1] in more;
  }

  /** The fields of a line with the id among them. */
  function AllTexts(s: Store, row: Row): seq<(string, string)> {
    [("handoff_id", row.id)] + Texts(s, row)
  }

  lemma LeftAllFirst(w: Words, first: string, rest: seq<string>)
    ensures LeftOfAll(w, [first] + rest) == LeftOf(w, first) + LeftOfAll(w, rest)
  {
    assert ([first] + rest)[1..] == rest;
  }

  /** A clean text among them leaves nothing. */
  lemma {:induction false} CleanDropped(w: Words, before: seq<string>, t: string, after: seq<string>)
    requires CleanText(t)
    ensures LeftOfAll(w, before + [t] + after) == LeftOfAll(w, before + after)
  {
    if before == [] {
      assert before + [t] + after == [t] + after && before + after == after;
      LeftAllFirst(w, t, after);
    } else {
      var first, rest := before[0], before[1..];
      assert before + [t] + after == [first] + (rest + [t] + after) && before + after == [first] + (rest + after);
      LeftAllFirst(w, first, rest + [t] + after);
      LeftAllFirst(w, first, rest + after);
      CleanDropped(w, rest, t, after);
    }
  }

  lemma {:induction false} ValuesAt(texts: seq<(string, string)>)
    ensures |Values(texts)| == |texts| && forall k | 0 <= k < |texts| :: Values(texts)[k] == texts[k].1
  {
    if texts != [] { ValuesAt(texts[1..]); }
  }

  lemma TwoDropped(w: Words, ts: seq<string>, a: string, b: string)
    requires |ts| == 9 && CleanText(a) && CleanText(b)
    ensures LeftOfAll(w, ts[..6] + [a] + ([b] + ts[6..])) == LeftOfAll(w, ts)
  {
    CleanDropped(w, ts[..6], a, [b] + ts[6..]);
    CleanDropped(w, ts[..6], b, ts[6..]);
    assert ts[..6] + ([b] + ts[6..]) == ts[..6] + [b] + ts[6..] && ts == ts[..6] + ts[6..];
  }

  /** The fields of a line leave what the texts of its row leave. */
  lemma AllTextsLeave(s: Store, row: Row)
    requires CleanText(s.iso(row.deadline))
    ensures LeftOfAll(s.words, Values(AllTexts(s, row))) == Leftover(s.words, row)
  {
    var ts, a, b := TextsOf(row), s.iso(row.deadline), StatusText(row.status);
    ValuesAt(AllTexts(s, row));
    assert Values(AllTexts(s, row)) == ts[..6] + [a] + ([b] + ts[6..]);
    TwoDropped(s.words, ts, a, b);
  }

  lemma AllTextsPlain(s: Store, row: Row)
    ensures PlainNames(AllTexts(s, row))
  {
    NamesArePlain(s, row);
    var all := AllTexts(s, row);
    forall k | 0 <= k < |all| ensures Unbroken(all[k].0) && all[k].0 != "" && 'a' <= all[k].0[0] <= 'z' {
      if k > 0 { assert all[k] == Texts(s, row)[k - 1]; }
    }
  }

  lemma AllTextsClean(s: Store, row: Row)
    requires CleanText(s.iso(row.deadline)) && CleanAll(AllTexts(s, row))
    ensures Clean(row)
  {
    CleanTexts(s, row);
    assert AllTexts(s, row)[0].1 == row.id;
    forall k | 0 <= k < |Texts(s, row)| ensures CleanText(Texts(s, row)[k].1) { assert AllTexts(s, row)[k + 1] == Texts(s, row)[k]; }
  }

  lemma SwapHead(key: string, opening: string, x: string, piece: string, c: char, tail: string)
    requires key + x == piece + [c] + tail && key <= piece
    ensures opening + x == (opening + piece[|key|..]) + [c] + tail
  {
    assert x == (piece + [c] + tail)[|key|..] == piece[|key|..] + [c] + tail;
  }

  lemma HeadUnbroken(key: string, piece: string)
    requires key <= piece && Unbroken(piece)
    ensures Unbroken(OPENING + piece[|key|..])
  {
    assert piece == key + piece[|key|..];
    JoinUnbroken(key, piece[|key|..]);
    OpeningUnbroken(piece[|key|..]);
  }

  lemma UncleanTexts(s: Store, row: Row)
    requires Faithful(s) && !Clean(row)
    ensures PlainNames(AllTexts(s, row)) && !CleanAll(AllTexts(s, row))
    ensures RestOf(AllTexts(s, row)) == Key("handoff_id") + (J.Body(row.id) + RestOf(Texts(s, row)))
  {
    AllTextsPlain(s, row);
    if CleanAll(AllTexts(s, row)) { AllTextsClean(s, row); }
    assert AllTexts(s, row)[1..] == Texts(s, row);
  }

  /** A broken line: up to its first break, and from there on. */
  lemma BrokenLine(s: Store, row: Row, line: string)
      returns (head: string, c: char, u: string, more: seq<(string, string)>)
    requires Faithful(s) && !Clean(row) && line == LineOf(s, row)
    ensures line == head + [c] + (J.Body(u) + RestOf(more)) && head != "" && Unbroken(head) && Separates(c) && PlainNames(more)
    ensures Leftover(s.words, row) == Following(s.words, u) + LeftOfAll(s.words, Values(more))
  {
    UncleanTexts(s, row);
    AllTextsLeave(s, row);
    var piece, key := "", Key("handoff_id");
    piece, c, u, more := SplitRest(s.words, AllTexts(s, row));
    SwapHead(key, OPENING, J.Body(row.id) + RestOf(Texts(s, row)), piece, c, J.Body(u) + RestOf(more));
    HeadUnbroken(key, piece);
    head := OPENING + piece[|key|..];
  }

  /** A line reads as its row when it is whole, and when it is broken as what is left of it. */
  lemma LineReads(s: Store, row: Row, line: string)
    requires Faithful(s) && line == LineOf(s, row)
    ensures ReadAll(s, line) == Back(s.words, Entry(row))
  {
    if Clean(row) {
      LineUnbrokenIff(s, row);
      LineShape(s, row);
      OnePiece(s, line);
    } else {
      var head, c, u, more := BrokenLine(s, row, line);
      var rest := J.Body(u) + RestOf(more);
      ReadSplit(s, head, c, rest, line);
      HeadReads(s, row, line, head);
      FollowingReads(s, u, more, rest);
    }
  }

  // ------------------------------------------------------------------ whole files

  lemma ItemReads(s: Store, item: Item)
    requires Faithful(s) && Settled(s, item) && !item.Poison?
    ensures ReadAll(s, ItemLine(s, item)) == Back(s.words, item)
  {
    match item
    case Entry(row) => LineReads(s, row, LineOf(s, row));
    case Object(text) => OnePiece(s, text);
    case Stray(text) => OnePiece(s, text);
  }

  ghost predicate AllSettled(s: Store, items: seq<Item>) {
    forall item | item in items :: Settled(s, item)
  }

  /** The write and read round trip: the clean rows come back and so do the values, in their
      order, and in the place of each other row what is left of it. */
  lemma {:induction false} FileReads(s: Store, items: seq<Item>)
    requires Faithful(s) && AllSettled(s, items) && Readable(items)
    ensures ReadAll(s, FileOf(s, items)) == Reread(s.words, items)
  {
    if items == [] {
      assert Items(s.words, [""]) == ItemOf(s.words, "") + Items(s.words, []);
    } else {
      var rest := items[1..];
      assert items[0] in items;
      forall item | item in rest ensures Settled(s, item) && !item.Poison? { assert item in items; }
      ReadSplit(s, ItemLine(s, items[0]), NEWLINE, FileOf(s, rest), FileOf(s, items));
      ItemReads(s, items[0]);
      FileReads(s, rest);
    }
  }

  /** A written row is read back exactly when none of its texts holds a line separator. */
  lemma SurvivesIff(s: Store, items: seq<Item>, r: Row)
    requires Faithful(s) && AllSettled(s, items) && Readable(items)
    ensures Entry(r) in ReadAll(s, FileOf(s, items)) <==> Entry(r) in items && Clean(r)
  {
    FileReads(s, items);
    RereadExactly(s.words, items, Entry(r));
  }

  /** A file whose values stop nothing leaves later operations free exactly when each of its
      rows is tame: no text of one holds, between two of its separators, a JSON value other than
      an object, or after a separator something that the parser raises on. */
  lemma FreeIff(s: Store, items: seq<Item>)
    requires Faithful(s) && AllSettled(s, items) && Free(items)
    ensures Free(ReadAll(s, FileOf(s, items))) <==>
            forall item, t | item in items && item.Entry? && t in TextsOf(item.row) :: TameText(s.words, t)
  {
    FileReads(s, items);
    RereadFreeIff(s.words, items);
    forall item | item in items
      ensures Free(Back(s.words, item)) <==> (item.Entry? ==> forall t | t in TextsOf(item.row) :: TameText(s.words, t))
    {
      if item.Entry? { TameIff(s.words, item.row); } else { assert Back(s.words, item) == [item]; }
    }
  }

  // --------------------------------------------------------- operations on the file

  /** The file after an operation, which rewrites it only when it has something to change. */
  function OnFile(s: Store, text: string, op: Op): string {
    match Do(s.words, ReadAll(s, text), op) case Wrote(next) => FileOf(s, next) case _ => text
  }

  function OnFileAll(s: Store, text: string, ops: seq<Op>): string
    decreases |ops|
  {
    if ops == [] then text else OnFileAll(s, OnFile(s, text, ops[0]), ops[1..])
  }

  lemma {:induction false} FollowingSettled(s: Store, t: string)
    requires Faithful(s)
    ensures AllSettled(s, Following(s.words, t))
    decreases |t|
  {
    if !CleanText(t) { FollowingSettled(s, t[FirstSeparator(t) + 1..]); }
  }

  lemma {:induction false} LeftSettled(s: Store, ts: seq<string>)
    requires Faithful(s)
    ensures AllSettled(s, LeftOfAll(s.words, ts))
  {
    if ts != [] {
      if !CleanText(ts[0]) { FollowingSettled(s, ts[0][FirstSeparator(ts[0]) + 1..]); }
      LeftSettled(s, ts[1..]);
    }
  }

  lemma {:induction false} RereadSettled(s: Store, items: seq<Item>)
    requires Faithful(s) && AllSettled(s, items)
    ensures AllSettled(s, Reread(s.words, items))
  {
    if items != [] {
      assert items[0] in items;
      forall item | item in items[1..] ensures Settled(s, item) { assert item in items; }
      if items[0].Entry? { LeftSettled(s, TextsOf(items[0].row)); }
      RereadSettled(s, items[1..]);
    }
  }

  lemma WritesSettled(s: Store, items: seq<Item>, op: Op)
    requires AllSettled(s, items) && Do(s.words, items, op).Wrote?
    ensures var next := Do(s.words, items, op).items; AllSettled(s, next) && Readable(next)
  {
    var next := Do(s.words, items, op).items;
    WritesNoOther(s.words, items, op);
    forall item | item in next ensures Settled(s, item) && !item.Poison? {
      if !item.Entry? { assert item in items; }
    }
  }

  /** The items of the file go through an operation as the model of items says. */
  lemma OnFileReads(s: Store, text: string, op: Op)
    requires Faithful(s) && AllSettled(s, ReadAll(s, text))
    ensures ReadAll(s, OnFile(s, text, op)) == After(s.words, ReadAll(s, text), op)
    ensures AllSettled(s, After(s.words, ReadAll(s, text), op))
  {
    var items := ReadAll(s, text);
    if Do(s.words, items, op).Wrote? {
      WritesSettled(s, items, op);
      FileReads(s, Do(s.words, items, op).items);
      RereadSettled(s, Do(s.words, items, op).items);
    }
  }

  /** The file refines the items over every run. */
  lemma {:induction false} RunReads(s: Store, text: string, ops: seq<Op>)
    requires Faithful(s) && AllSettled(s, ReadAll(s, text))
    ensures ReadAll(s, OnFileAll(s, text, ops)) == AfterAll(s.words, ReadAll(s, text), ops)
    decreases |ops|
  {
    if ops != [] {
      OnFileReads(s, text, ops[0]);
      RunReads(s, OnFile(s, text, ops[0]), ops[1..]);
    }
  }

  /** The escalation theorem about the file itself: over every run of allowed operations that
      write no line separator for this id, the rows in the file stay sound, and this id is
      escalated at most once, never lost, never set back, and closed when last swapped. */
  lemma FileEscalatesOnce(s: Store, text: string, ops: seq<Op>, id: string)
    requires Faithful(s) && AllSettled(s, ReadAll(s, text)) && Sound(s.words, ReadAll(s, text)) && !(CANARY <= id)
    requires forall k :: 0 <= k < |ops| ==> Allowed(ops[k]) && CleanFor(ops[k], id)
    ensures var was, end := ReadAll(s, text), ReadAll(s, OnFileAll(s, text, ops));
            && Sound(s.words, end) && RankOf(RowOf(end, id)) >= RankOf(RowOf(was, id))
            && Escalations(s.words, was, ops, id) <= (if RankOf(RowOf(was, id)) == 0 then 1 else 0)
            && (HasId(was, id) ==> HasId(end, id) && RowOf(end, id).value.closed == LastWin(s.words, was, ops, id, RowOf(was, id).value.closed))
  {
    RunReads(s, text, ops);
    RunsEscalateOnce(s.words, ReadAll(s, text), ops, id);
  }

  lemma SameItemsSameWrite(s: Store, items: seq<Item>, file: string, op: Op)
    requires Faithful(s) && AllSettled(s, items) && Readable(items) && (forall r | Entry(r) in items :: Clean(r))
    requires ReadAll(s, file) == items && Do(s.words, items, op).Wrote?
    ensures OnFile(s, file, op) == OnFile(s, FileOf(s, items), op)
  {
    FileReads(s, items);
    CleanReread(s.words, items);
  }

  lemma UncleanAppendRead(w: Words, items: seq<Item>, row: Row, valid: Row)
    requires (forall r | Entry(r) in items :: Clean(r)) && !Clean(row) && TextsOf(valid) == TextsOf(row)
    ensures Reread(w, items + [Entry(valid)]) == items + Leftover(w, row)
  {
    CleanTextsOf(row);
    CleanTextsOf(valid);
    RereadAdds(w, items, Entry(valid));
    CleanReread(w, items);
  }

  lemma AppendedFile(s: Store, text: string, row: Row, items: seq<Item>)
    requires Append(s.words, ReadAll(s, text), row).Wrote? && items == ReadAll(s, text)
    ensures OnFile(s, text, AppendOp(row)) == FileOf(s, items + [Entry(Validate(s.words, row).value)])
    ensures After(s.words, items, AppendOp(row)) == Reread(s.words, items + [Entry(Validate(s.words, row).value)])
    ensures TextsOf(Validate(s.words, row).value) == TextsOf(row)
  {
  }

  /** A row with a line separator is appended without an error and is in the file, but what is
      read there is what was there before and what is left of the row, which is no row. */
  lemma UncleanAppendIsLost(s: Store, text: string, row: Row)
    requires Faithful(s) && AllSettled(s, ReadAll(s, text)) && Sound(s.words, ReadAll(s, text))
    requires Append(s.words, ReadAll(s, text), row).Wrote? && !Clean(row)
    ensures OnFile(s, text, AppendOp(row)) == FileOf(s, ReadAll(s, text) + [Entry(Validate(s.words, row).value)])
    ensures ReadAll(s, OnFile(s, text, AppendOp(row))) == ReadAll(s, text) + Leftover(s.words, row)
    ensures NoEntries(Leftover(s.words, row))
  {
    var items := ReadAll(s, text);
    OnFileReads(s, text, AppendOp(row));
    AppendedFile(s, text, row, items);
    UncleanAppendRead(s.words, items, row, Validate(s.words, row).value);
    LeftoverNoEntries(s.words, row);
  }

  /** If it leaves nothing behind, the next operation that writes erases it: the file is then
      as if the row had never been appended. */
  lemma NextWriteErases(s: Store, text: string, row: Row, op: Op)
    requires Faithful(s) && AllSettled(s, ReadAll(s, text)) && Sound(s.words, ReadAll(s, text))
    requires Append(s.words, ReadAll(s, text), row).Wrote? && !Clean(row) && Leftover(s.words, row) == []
    requires Do(s.words, ReadAll(s, text), op).Wrote?
    ensures OnFile(s, OnFile(s, text, AppendOp(row)), op) == OnFile(s, FileOf(s, ReadAll(s, text)), op)
  {
    UncleanAppendIsLost(s, text, row);
    var items := ReadAll(s, text);
    assert items + [] == items && Readable(items);
    SameItemsSameWrite(s, items, OnFile(s, text, AppendOp(row)), op);
  }

  // ------------------------------------------------------------------ the class

  /** What reading the file comes to: all that is in it, or the error of the parser. */
  datatype Reading = Read(items: seq<Item>) | Raised(error: Error)

  function ReadingOf(items: seq<Item>): Reading {
    if Readable(items) then Read(items) else Raised(FirstError(items))
  }

  lemma ReadableJoin(a: seq<Item>, b: seq<Item>)
    requires Readable(a)
    ensures Readable(a + b) <==> Readable(b)
  {
    if !Readable(b) {
      var item :| item in b && item.Poison?;
      assert item in a + b;
    }
  }

  lemma {:induction false} FirstErrorJoin(a: seq<Item>, error: Error, b: seq<Item>)
    requires Readable(a)
    ensures !Readable(a + [Poison(error)] + b) && FirstError(a + [Poison(error)] + b) == error
  {
    var all := a + [Poison(error)] + b;
    assert all[|a|] == Poison(error) && all[|a|] in all;
    if a != [] {
      assert a[0] in a && all[0] == a[0] && all[1..] == a[1..] + [Poison(error)] + b;
      forall item | item in a[1..] ensures !item.Poison? { assert item in a; }
      FirstErrorJoin(a[1..], error, b);
    }
  }

  lemma ItemsFrom(w: Words, pieces: seq<string>, k: nat)
    requires k < |pieces|
    ensures Items(w, pieces[k..]) == ItemOf(w, pieces[k]) + Items(w, pieces[k + 1..])
  {
    assert pieces[k..][1..] == pieces[k + 1..];
  }

  lemma WithoutFrom(items: seq<Item>, id: string, k: nat)
    requires k < |items|
    ensures Without(items[k..], id) == (if items[k].Entry? && items[k].row.id == id then [] else [items[k]]) + Without(items[k + 1..], id)
  {
    assert items[k..][1..] == items[k + 1..];
  }

  class Ledger {
    const store: Store
    var text: string

    /** A missing file counts as an empty one. */
    constructor (store: Store)
      ensures this.store == store && text == "" && ReadAll(store, text) == []
    {
      this.store, text := store, "";
      assert Items(store.words, [""]) == ItemOf(store.words, "") + Items(store.words, []);
    }

    method ReadItems() returns (reading: Reading)
      ensures reading == ReadingOf(ReadAll(store, text))
    {
      var items: seq<Item> := [];
      var pieces := Pieces(text);
      ghost var all := ReadAll(store, text);
      for k := 0 to |pieces|
        invariant items + Items(store.words, pieces[k..]) == all && Readable(items)
      {
        ItemsFrom(store.words, pieces, k);
        Regrouped(items, ItemOf(store.words, pieces[k]), Items(store.words, pieces[k + 1..]));
        var line := Strip(pieces[k]);
        if line == "" { continue; }
        match store.words.loads(line)
        case None =>
        case Some(item) =>
          if item.Poison? {
            FirstErrorJoin(items, item.error, Items(store.words, pieces[k + 1..]));
            return Raised(item.error);
          }
          ReadableJoin(items, [item]);
          items := items + [item];
      }
      return Read(items);
    }

    method WriteItems(items: seq<Item>)
      modifies this
      ensures text == FileOf(store, items)
    {
      var file := "";
      for k := 0 to |items|
        invariant file + FileOf(store, items[k..]) == FileOf(store, items)
      {
        assert items[k..][1..] == items[k + 1..];
        var line := ItemLine(store, items[k]) + [NEWLINE];
        Regrouped(file, line, FileOf(store, items[k + 1..]));
        file := file + line;
      }
      text := file;
    }

    /** The loop of a scan: it ends at the first stray value or row of this id and status. */
    static method Scan(items: seq<Item>, id: string, wanted: Option<Status>) returns (k: nat)
      ensures k == Seek(items, id, wanted)
    {
      k := 0;
      while k < |items| && !Ends(items[k], id, wanted)
        invariant k <= |items| && forall j :: 0 <= j < k ==> !Ends(items[j], id, wanted)
      {
        k := k + 1;
      }
    }

    method AppendHandoff(row: Row) returns (did: Did)
      modifies this
      ensures did == Append(store.words, ReadAll(store, old(text)), row)
      ensures text == OnFile(store, old(text), AppendOp(row))
    {
      var valid := Validate(store.words, row);
      if valid.Refused? { return Bad; }
      var reading := ReadItems();
      if reading.Raised? { return if reading.error == ValueError then Bad else Failed; }
      var k := Scan(reading.items, valid.value.id, None);
      if k < |reading.items| { return if reading.items[k].Stray? then Failed else Kept; }
      WriteItems(reading.items + [Entry(valid.value)]);
      return Wrote(reading.items + [Entry(valid.value)]);
    }

    method CasStatus(id: string, wanted: Status, to: Status, now: string, note: string) returns (did: Did)
      modifies this
      ensures did == Cas(ReadAll(store, old(text)), id, wanted, to, now, note)
      ensures text == OnFile(store, old(text), CasOp(id, wanted, to, now, note))
    {
      var reading := ReadItems();
      if reading.Raised? { return if reading.error == ValueError then Bad else Failed; }
      var k := Scan(reading.items, id, Some(wanted));
      if k == |reading.items| { return Kept; }
      if reading.items[k].Stray? { return Failed; }
      var next := reading.items[k := Entry(Swapped(reading.items[k].row, wanted, to, now, note))];
      WriteItems(next);
      return Wrote(next);
    }

    method RemoveHandoff(id: string) returns (did: Did)
      modifies this
      ensures did == Remove(ReadAll(store, old(text)), id)
      ensures text == OnFile(store, old(text), RemoveOp(id))
    {
      var reading := ReadItems();
      if reading.Raised? { return if reading.error == ValueError then Bad else Failed; }
      var kept, changed, failed := Others(reading.items, id);
      if failed { return Failed; }
      if !changed { return Kept; }
      WriteItems(kept);
      return Wrote(kept);
    }

    /** The loop of the filter, which fails at the first stray value. */
    static method Others(items: seq<Item>, id: string) returns (kept: seq<Item>, changed: bool, failed: bool)
      ensures failed <==> HasStray(items)
      ensures !failed ==> kept == Without(items, id) && (changed <==> HasId(items, id))
    {
      kept, changed, failed := [], false, false;
      for k := 0 to |items|
        invariant kept + Without(items[k..], id) == Without(items, id)
        invariant changed <==> exists j | 0 <= j < k :: items[j].Entry? && items[j].row.id == id
        invariant forall j | 0 <= j < k :: !items[j].Stray?
      {
        var mine := items[k].Entry? && items[k].row.id == id;
        WithoutFrom(items, id, k);
        Regrouped(kept, if mine then [] else [items[k]], Without(items[k + 1..], id));
        if items[k].Stray? {
          assert items[k] in items;
          return kept, changed, true;
        }
        if mine { changed := true; } else { kept := kept + [items[k]]; }
      }
    }

    /** The open rows; a refusal is an error of the parser or of a stray value. */
    method QueryOpen(founders: set<string>, now: Option<Instant>) returns (found: Result<seq<Row>>)
      ensures var items := ReadAll(store, text);
              found == if Readable(items) && !HasStray(items) then Ok(Selected(store.words, founders, now, items)) else Refused
    {
      var reading := ReadItems();
      if reading.Raised? { return Refused; }
      var rows, failed := Picked(store.words, founders, now, reading.items);
      return if failed then Refused else Ok(rows);
    }

    static method Picked(w: Words, founders: set<string>, now: Option<Instant>, items: seq<Item>) returns (rows: seq<Row>, failed: bool)
      ensures failed <==> HasStray(items)
      ensures !failed ==> rows == Selected(w, founders, now, items)
    {
      rows, failed := [], false;
      for k := 0 to |items|
        invariant rows + Selected(w, founders, now, items[k..]) == Selected(w, founders, now, items)
        invariant forall j | 0 <= j < k :: !items[j].Stray?
      {
        assert items[k..][1..] == items[k + 1..];
        if items[k].Stray? {
          assert items[k] in items;
          return rows, true;
        }
        var picked := if Picks(w, founders, now, items[k]) then [items[k].row] else [];
        Regrouped(rows, picked, Selected(w, founders, now, items[k + 1..]));
        rows := rows + picked;
      }
    }
  }
}
