/** The managed license notice of a bundle: printed after the shebang and parsed back, so
    that writing it settles and leaves shebang and body alone. A byte is a character here. */
module LicenseNotice {
  import opened Outcome
  import opened TextLines

  /** The lines that open and close a notice. */
  datatype Markers = Markers(open: string, close: string)

  const MARKERS := Markers("// BEGIN CC-SUITE GENERATED LICENSE NOTICES\n", "// END CC-SUITE GENERATED LICENSE NOTICES\n")

  // ------------------------------------------------------------------ occurrences

  predicate At(data: string, m: string, i: nat) {
    i + |m| <= |data| && forall d | 0 <= d < |m| :: data[i + d] == m[d]
  }

  /** The first occurrence of `m` from `i` on, or the length if there is none. */
  function Find(data: string, m: string, i: nat): (k: nat)
    requires i <= |data| && m != ""
    ensures i <= k <= |data| && (k < |data| ==> At(data, m, k)) && forall j | i <= j < k :: !At(data, m, j)
    decreases |data| - i
  {
    if i == |data| || At(data, m, i) then i else Find(data, m, i + 1)
  }

  predicate Occurs(data: string, m: string)
    requires m != ""
  {
    Find(data, m, 0) < |data|
  }

  /** How often `m` occurs from `i` on, one after the other. */
  function CountFrom(data: string, m: string, i: nat): nat
    requires i <= |data| && m != ""
    decreases |data| - i
  {
    var k := Find(data, m, i);
    if k == |data| then 0 else 1 + CountFrom(data, m, k + |m|)
  }

  function Count(data: string, m: string): nat
    requires m != ""
  {
    CountFrom(data, m, 0)
  }

  /** A marker is one line: its only newline is its last character. */
  predicate Marker(m: string) {
    m != "" && forall i | 0 <= i < |m| :: m[i] == NEWLINE <==> i == |m| - 1
  }

  /** A line comment that is one physical line. */
  predicate LineComment(c: string) {
    Marker(c) && |c| >= 3 && c[0] == '/' && c[1] == '/' && '\r' !in c
  }

  /** Two different one-line comments, neither of which ends with the other. */
  predicate ValidMarkers(k: Markers) {
    LineComment(k.open) && LineComment(k.close) && !Ends(k.open, k.close) && !Ends(k.close, k.open)
  }

  predicate Ends(line: string, m: string) {
    |m| <= |line| && line[|line| - |m|..] == m
  }

  lemma LineCommentOf(text: string)
    requires |text| >= 2 && text[0] == '/' && text[1] == '/' && forall c | c in text :: c != NEWLINE && c != '\r'
    ensures LineComment(text + "\n")
  {
    var c := text + "\n";
    forall i | 0 <= i < |c| ensures c[i] == NEWLINE <==> i == |c| - 1 {
      if i < |text| { assert c[i] == text[i] && text[i] in text; }
    }
  }

  lemma OpenIsComment()
    ensures LineComment(MARKERS.open) && |MARKERS.open| == 44
  {
    var text := "// BEGIN CC-SUITE GENERATED LICENSE NOTICES";
    LineCommentOf(text);
    assert text + "\n" == MARKERS.open;
  }

  lemma CloseIsComment()
    ensures LineComment(MARKERS.close) && |MARKERS.close| == 42
  {
    var text := "// END CC-SUITE GENERATED LICENSE NOTICES";
    LineCommentOf(text);
    assert text + "\n" == MARKERS.close;
  }

  lemma MarkersAreValid()
    ensures ValidMarkers(MARKERS)
  {
    OpenIsComment();
    CloseIsComment();
    var tail := MARKERS.open[2..];
    assert tail[0] == MARKERS.open[2] == ' ' && MARKERS.close[0] == '/';
  }

  /** In a single line a marker can only stand at its end. */
  lemma OneLineOnce(line: string, m: string)
    requires Marker(line) && Marker(m)
    ensures Occurs(line, m) <==> Ends(line, m)
  {
    var i := Find(line, m, 0);
    assert At(line, m, i) ==> line[i + (|m| - 1)] == m[|m| - 1];
    if Ends(line, m) {
      var j := |line| - |m|;
      assert forall d | 0 <= d < |m| :: line[j + d] == line[j..][d];
      assert At(line, m, j);
    }
    if i < |line| { assert line[i..] == m; }
  }

  // --------------------------------------------------------- whole lines add up

  lemma FindIs(data: string, m: string, i: nat, k: nat)
    requires m != "" && i <= k <= |data| && (k < |data| ==> At(data, m, k)) && forall j | i <= j < k :: !At(data, m, j)
    ensures Find(data, m, i) == k
  {
  }

  lemma AtLater(a: string, b: string, m: string, i: nat)
    requires m != ""
    ensures At(a + b, m, |a| + i) <==> At(b, m, i)
  {
    var all := a + b;
    if i + |m| <= |b| {
      assert forall d | 0 <= d < |m| :: (m[d] == all[|a| + i + d]) == (m[d] == b[i + d]);
    }
  }

  /** An occurrence that begins in whole lines ends in them. */
  lemma AtEarlier(a: string, b: string, m: string, i: nat)
    requires Whole(a) && Marker(m) && i < |a|
    ensures At(a + b, m, i) <==> At(a, m, i)
  {
    var all := a + b;
    assert forall j | 0 <= j < |a| :: all[j] == a[j];
    if |a| < i + |m| <= |all| {
      var d := |a| - 1 - i;
      assert all[i + d] == NEWLINE && m[d] != NEWLINE;
    }
  }

  lemma FindLater(a: string, b: string, m: string, i: nat)
    requires m != "" && i <= |b|
    ensures Find(a + b, m, |a| + i) == |a| + Find(b, m, i)
  {
    var k := Find(b, m, i);
    AtLater(a, b, m, k);
    forall j | |a| + i <= j < |a| + k ensures !At(a + b, m, j) { AtLater(a, b, m, j - |a|); }
    FindIs(a + b, m, |a| + i, |a| + k);
  }

  /** Where the first occurrence in two parts is. */
  lemma FindInParts(a: string, b: string, m: string, i: nat)
    requires Whole(a) && Marker(m) && i <= |a|
    ensures Find(a + b, m, i) == if Find(a, m, i) < |a| then Find(a, m, i) else |a| + Find(b, m, 0)
  {
    var k := Find(a, m, i);
    forall j | i <= j < k ensures !At(a + b, m, j) { AtEarlier(a, b, m, j); }
    if k < |a| {
      AtEarlier(a, b, m, k);
      FindIs(a + b, m, i, k);
    } else {
      FindLater(a, b, m, 0);
      FindIs(a + b, m, i, |a| + Find(b, m, 0));
    }
  }

  lemma OccursInParts(a: string, b: string, m: string)
    requires Whole(a) && Marker(m)
    ensures Occurs(a + b, m) <==> Occurs(a, m) || Occurs(b, m)
  {
    FindInParts(a, b, m, 0);
  }

  lemma {:induction false} CountLater(a: string, b: string, m: string, i: nat)
    requires m != "" && i <= |b|
    ensures CountFrom(a + b, m, |a| + i) == CountFrom(b, m, i)
    decreases |b| - i
  {
    FindLater(a, b, m, i);
    var k := Find(b, m, i);
    if k < |b| { CountLater(a, b, m, k + |m|); }
  }

  lemma {:induction false} CountInParts(a: string, b: string, m: string, i: nat)
    requires Whole(a) && Marker(m) && i <= |a|
    ensures CountFrom(a + b, m, i) == CountFrom(a, m, i) + Count(b, m)
    decreases |a| - i
  {
    FindInParts(a, b, m, i);
    var k := Find(a, m, i);
    if k < |a| {
      CountInParts(a, b, m, k + |m|);
    } else {
      CountLater(a, b, m, 0);
      NothingLeft(a, b, m, i);
    }
  }

  lemma NothingLeft(a: string, b: string, m: string, i: nat)
    requires m != "" && i <= |a| && Find(a + b, m, i) == |a| + Find(b, m, 0)
    ensures CountFrom(a + b, m, i) == CountFrom(a + b, m, |a|)
  {
    FindLater(a, b, m, 0);
  }

  /** Occurrences in whole lines and in what follows them add up. */
  lemma CountsAdd(a: string, b: string, m: string, all: string)
    requires Whole(a) && Marker(m) && all == a + b
    ensures Count(all, m) == Count(a, m) + Count(b, m)
  {
    CountInParts(a, b, m, 0);
  }

  lemma CountsOnce(m: string)
    requires Marker(m)
    ensures Count(m, m) == 1 && Find(m, m, 0) == 0
  {
    assert At(m, m, 0);
    FindIs(m, m, 0, 0);
    assert CountFrom(m, m, |m|) == 0;
  }

  // -------------------------------------------------------------------- the notice

  function CommentLine(line: string): string {
    "//" + (if line != "" then " " + line else "") + [NEWLINE]
  }

  function Comments(lines: seq<string>): string {
    if lines == [] then "" else CommentLine(lines[0]) + Comments(lines[1..])
  }

  function Render(k: Markers, lines: seq<string>): string {
    k.open + (Comments(lines) + k.close)
  }

  /** Physical lines: no line of the notice contains a line break. */
  predicate Physical(lines: seq<string>) {
    forall k | 0 <= k < |lines| :: NEWLINE !in lines[k] && '\r' !in lines[k]
  }

  /** Some line, as rendered, ends with a marker. */
  predicate EndsInMarker(k: Markers, lines: seq<string>) {
    exists i | 0 <= i < |lines| :: Ends(CommentLine(lines[i]), k.open) || Ends(CommentLine(lines[i]), k.close)
  }

  lemma CommentLineIs(line: string)
    requires NEWLINE !in line
    ensures Marker(CommentLine(line))
  {
    var c := CommentLine(line);
    forall i | 0 <= i < |c| ensures c[i] == NEWLINE <==> i == |c| - 1 {
      if line != "" && 3 <= i < |c| - 1 { assert c[i] == line[i - 3] && line[i - 3] in line; }
    }
  }

  lemma {:induction false} CommentsAreWhole(lines: seq<string>)
    ensures Whole(Comments(lines))
  {
    if lines != [] {
      CommentsAreWhole(lines[1..]);
      var c := CommentLine(lines[0]);
      assert c[|c| - 1] == NEWLINE;
    }
  }

  /** A marker occurs in the comment lines exactly when one of them ends with it. */
  lemma {:induction false} CommentsContain(lines: seq<string>, m: string)
    requires Physical(lines) && Marker(m)
    ensures Occurs(Comments(lines), m) <==> exists k | 0 <= k < |lines| :: Ends(CommentLine(lines[k]), m)
  {
    if lines != [] {
      CommentLineIs(lines[0]);
      OneLineOnce(CommentLine(lines[0]), m);
      OccursInParts(CommentLine(lines[0]), Comments(lines[1..]), m);
      CommentsContain(lines[1..], m);
      if exists k | 0 <= k < |lines[1..]| :: Ends(CommentLine(lines[1..][k]), m) {
        var k :| 0 <= k < |lines[1..]| && Ends(CommentLine(lines[1..][k]), m);
        assert Ends(CommentLine(lines[k + 1]), m);
      }
      if exists k | 0 < k < |lines| :: Ends(CommentLine(lines[k]), m) {
        var k :| 0 < k < |lines| && Ends(CommentLine(lines[k]), m);
        assert Ends(CommentLine(lines[1..][k - 1]), m);
      }
    }
  }

  lemma CountZeroIff(data: string, m: string)
    requires m != ""
    ensures Count(data, m) == 0 <==> !Occurs(data, m)
  {
  }

  lemma Regroup(a: string, b: string, c: string, d: string)
    ensures (a + (b + c)) + d == a + (b + (c + d))
  {
    assert (a + (b + c)) + d == a + ((b + c) + d);
    assert (b + c) + d == b + (c + d);
  }

  /** How often a marker counts in opening, comments, closing and body. */
  lemma CountsInParts(open: string, comments: string, close: string, body: string, m: string)
    requires Whole(open) && Whole(comments) && Whole(close) && Marker(m)
    ensures Count((open + (comments + close)) + body, m) == Count(open, m) + Count(comments, m) + Count(close, m) + Count(body, m)
    ensures !Occurs(open, m) && !Occurs(comments, m) ==> Find((open + (comments + close)) + body, m, 0) == |open| + |comments| + Find(close + body, m, 0)
  {
    Regroup(open, comments, close, body);
    CountsAdd(open, comments + (close + body), m, open + (comments + (close + body)));
    CountsAdd(comments, close + body, m, comments + (close + body));
    CountsAdd(close, body, m, close + body);
    FindInParts(open, comments + (close + body), m, 0);
    FindInParts(comments, close + body, m, 0);
  }

  lemma MarkerOnce(m: string, other: string)
    requires Marker(m) && Marker(other) && !Ends(m, other)
    ensures Count(m, m) == 1 && Find(m, m, 0) == 0 && Count(m, other) == 0 && !Occurs(m, other)
  {
    CountsOnce(m);
    OneLineOnce(m, other);
  }

  // ------------------------------------------------------------- the printed lines

  /** The text of a comment line: what follows `//` and the space after it, if there is one. */
  function TextOf(comment: string): string {
    if "// " <= comment then comment[3..] else if "//" <= comment then comment[2..] else comment
  }

  lemma SplitsOffLine(c: string, rest: string, all: string)
    requires Marker(c) && all == c + rest
    ensures Split(all) == [c[..|c| - 1]] + Split(rest)
  {
    var k := |c| - 1;
    assert all[k] == c[k] == NEWLINE && all[..k] == c[..k];
    forall i | 0 <= i < k ensures all[..k][i] != NEWLINE { assert all[..k][i] == c[i]; }
    FirstNewlineIs(all, k);
    assert all[k + 1..] == rest;
  }

  lemma TextOfCommentLine(line: string)
    requires NEWLINE !in line
    ensures var c := CommentLine(line); Marker(c) && "//" <= c[..|c| - 1] && TextOf(c[..|c| - 1]) == line
  {
    CommentLineIs(line);
    var c := CommentLine(line);
    if line != "" { assert c[..|c| - 1] == "// " + line; }
  }

  lemma {:induction false} CommentTexts(lines: seq<string>, rest: string)
    requires Physical(lines)
    ensures var printed := Split(Comments(lines) + rest);
            && |printed| == |lines| + |Split(rest)| && printed[|lines|..] == Split(rest)
            && forall i | 0 <= i < |lines| :: "//" <= printed[i] && TextOf(printed[i]) == lines[i]
  {
    if lines == [] {
      assert Comments(lines) + rest == rest;
    } else {
      CommentTexts(lines[1..], rest);
      FirstCommentOff(lines, rest, CommentLine(lines[0]));
      OneMoreText(lines, Split(Comments(lines[1..]) + rest), Split(Comments(lines) + rest), CommentLine(lines[0])[..|CommentLine(lines[0])| - 1]);
    }
  }

  lemma FirstCommentOff(lines: seq<string>, rest: string, c: string)
    requires lines != [] && Physical(lines) && c == CommentLine(lines[0])
    ensures Split(Comments(lines) + rest) == [c[..|c| - 1]] + Split(Comments(lines[1..]) + rest)
    ensures "//" <= c[..|c| - 1] && TextOf(c[..|c| - 1]) == lines[0]
  {
    TextOfCommentLine(lines[0]);
    Regrouped(c, Comments(lines[1..]), rest);
    SplitsOffLine(c, Comments(lines[1..]) + rest, Comments(lines) + rest);
  }

  lemma OneMoreText(lines: seq<string>, later: seq<string>, printed: seq<string>, first: string)
    requires lines != [] && printed == [first] + later && |later| >= |lines| - 1
    requires "//" <= first && TextOf(first) == lines[0]
    requires forall i | 0 <= i < |lines[1..]| :: "//" <= later[i] && TextOf(later[i]) == lines[1..][i]
    ensures |printed| == 1 + |later| && printed[|lines|..] == later[|lines| - 1..]
    ensures forall i | 0 <= i < |lines| :: "//" <= printed[i] && TextOf(printed[i]) == lines[i]
  {
    forall i | 0 < i < |lines| ensures "//" <= printed[i] && TextOf(printed[i]) == lines[i] {
      assert printed[i] == later[i - 1] && lines[i] == lines[1..][i - 1];
    }
  }

  /** The printed notice, line by line: the opening marker, the texts given, each in a comment of
      its own and in their order, and the closing marker. */
  lemma PrintedLines(k: Markers, lines: seq<string>, printed: seq<string>)
    requires ValidMarkers(k) && Physical(lines) && printed == Split(Render(k, lines))
    ensures |printed| == |lines| + 3
    ensures printed[0] + "\n" == k.open && printed[|lines| + 1] + "\n" == k.close && printed[|lines| + 2] == ""
    ensures forall i | 0 <= i < |lines| :: "//" <= printed[i + 1] && TextOf(printed[i + 1]) == lines[i]
  {
    var rest := Split(Comments(lines) + k.close);
    SplitsOffLine(k.open, Comments(lines) + k.close, Render(k, lines));
    assert printed == [k.open[..|k.open| - 1]] + rest;
    CommentTexts(lines, k.close);
    MarkerAlone(k.close);
    LineOfMarker(k.open);
    LineOfMarker(k.close);
    BetweenMarkers(lines, rest, printed, k.open[..|k.open| - 1], k.close[..|k.close| - 1]);
  }

  lemma BetweenMarkers(lines: seq<string>, rest: seq<string>, printed: seq<string>, open: string, close: string)
    requires printed == [open] + rest && |rest| == |lines| + 2 && rest[|lines|..] == [close, ""]
    requires forall i | 0 <= i < |lines| :: "//" <= rest[i] && TextOf(rest[i]) == lines[i]
    ensures |printed| == |lines| + 3 && printed[0] == open && printed[|lines| + 1] == close && printed[|lines| + 2] == ""
    ensures forall i | 0 <= i < |lines| :: "//" <= printed[i + 1] && TextOf(printed[i + 1]) == lines[i]
  {
    assert rest[|lines|] == rest[|lines|..][0] && rest[|lines| + 1] == rest[|lines|..][1];
  }

  lemma MarkerAlone(m: string)
    requires Marker(m)
    ensures Split(m) == [m[..|m| - 1], ""]
  {
    assert m + "" == m;
    SplitsOffLine(m, "", m);
  }

  lemma LineOfMarker(m: string)
    requires Marker(m)
    ensures m[..|m| - 1] + "\n" == m
  {
  }

  /** The counts of the markers, and the first closing one, in a notice followed by a body. */
  lemma NoticeCounts(k: Markers, lines: seq<string>, body: string)
    requires ValidMarkers(k) && Physical(lines)
    ensures var data := Render(k, lines) + body;
            && Count(data, k.open) == 1 + Count(Comments(lines), k.open) + Count(body, k.open)
            && Count(data, k.close) == 1 + Count(Comments(lines), k.close) + Count(body, k.close)
            && (!Occurs(Comments(lines), k.close) ==> Find(data, k.close, 0) == |k.open| + |Comments(lines)|)
  {
    CommentsAreWhole(lines);
    MarkerOnce(k.open, k.close);
    MarkerOnce(k.close, k.open);
    CountsInParts(k.open, Comments(lines), k.close, body, k.open);
    CountsInParts(k.open, Comments(lines), k.close, body, k.close);
    FindInParts(k.close, body, k.close, 0);
  }

  // ------------------------------------------------------------------------ parsing

  predicate Break(c: char) {
    c == NEWLINE || c == '\r'
  }

  function NextBreak(s: string, i: nat): (k: nat)
    requires i <= |s|
    ensures i <= k <= |s| && (k < |s| ==> Break(s[k])) && forall j | i <= j < k :: !Break(s[j])
    decreases |s| - i
  {
    if i == |s| || Break(s[i]) then i else NextBreak(s, i + 1)
  }

  /** Every line of the text, broken at newlines and carriage returns, is a comment. */
  predicate AllComments(s: string)
    decreases |s|
  {
    s == "" ||
    var k := NextBreak(s, 0);
    && "//" <= s[..k]
    && AllComments(s[if k == |s| then k else if s[k] == '\r' && k + 1 < |s| && s[k + 1] == NEWLINE then k + 2 else k + 1..])
  }

  datatype Parts = Parts(shebang: string, body: string, notice: string)

  /** Where the shebang line of a file ends. */
  function AfterShebang(file: string): Result<nat> {
    if !("#!" <= file) then Ok(0)
    else if NEWLINE !in file then Refused
    else Ok(FirstNewline(file) + 1)
  }

  /** Body and managed notice of what follows the shebang. */
  function SplitData(k: Markers, data: string): Result<(string, string)>
    requires k.open != "" && k.close != ""
  {
    if !Occurs(data, k.open) && !Occurs(data, k.close) then Ok((data, ""))
    else
      SplitManaged(k, data)
  }

  function SplitManaged(k: Markers, data: string): Result<(string, string)>
    requires k.open != "" && k.close != ""
  {
    var _ :- Check(k.open <= data && Count(data, k.open) == 1 && Count(data, k.close) == 1);
    var end := Find(data, k.close, 0) + |k.close|;
    var _ :- Check(end <= |data| && AllComments(data[..end]));
    Ok((data[end..], data[..end]))
  }

  /** Shebang, body and managed notice of a bundle; never another body byte. */
  function SplitNotice(k: Markers, file: string): Result<Parts>
    requires k.open != "" && k.close != ""
  {
    var n :- AfterShebang(file);
    var rest :- SplitData(k, file[n..]);
    Ok(Parts(file[..n], rest.0, rest.1))
  }

  /** What can stand before a notice: nothing, or one line that begins with `#!`. */
  predicate Shebang(s: string) {
    s == "" || ("#!" <= s && Marker(s))
  }

  // ------------------------------------------------------------ what parsing promises

  ghost predicate Nowhere(data: string, m: string) {
    forall j: nat :: !At(data, m, j)
  }

  /** `m` stands at this one place. */
  ghost predicate OnlyAt(data: string, m: string, i: nat) {
    At(data, m, i) && forall j: nat :: At(data, m, j) ==> j == i
  }

  /** Where a line begins: at the start, and after a line feed, a carriage return, or both. */
  predicate LineStart(s: string, i: nat) {
    i < |s| && (i == 0 || s[i - 1] == NEWLINE || (s[i - 1] == '\r' && s[i] != NEWLINE))
  }

  predicate Slashes(s: string, i: nat) {
    i + 2 <= |s| && s[i] == s[i + 1] == '/'
  }

  /** Two slashes stand wherever a line begins, from `n` on. */
  ghost predicate Commented(s: string, n: nat) {
    forall i: nat :: n <= i && LineStart(s, i) ==> Slashes(s, i)
  }

  /** Notice and body of `data`. Either there is no marker, and everything is body, or each marker
      stands once, at the beginning and at the end of a notice of comment lines. */
  ghost predicate Noticed(k: Markers, data: string, notice: string, body: string) {
    && data == notice + body
    && (if notice == "" then Nowhere(data, k.open) && Nowhere(data, k.close)
        else && OnlyAt(data, k.open, 0) && |k.close| <= |notice| && OnlyAt(data, k.close, |notice| - |k.close|)
             && Commented(notice, 0))
  }

  /** The parts of a bundle: its `#!` line if it begins with one, then notice and body. */
  ghost predicate Divided(k: Markers, file: string, p: Parts) {
    && file == p.shebang + (p.notice + p.body)
    && Shebang(p.shebang) && (p.shebang != "" <==> "#!" <= file)
    && Noticed(k, p.notice + p.body, p.notice, p.body)
  }

  lemma NowhereIff(data: string, m: string)
    requires m != ""
    ensures Nowhere(data, m) <==> !Occurs(data, m)
  {
  }

  lemma NoOverlap(data: string, m: string, i: nat, j: nat)
    requires Marker(m) && At(data, m, i) && i < j < i + |m|
    ensures !At(data, m, j)
  {
    var d := |m| - 1;
    var e := i + d - j;
    assert data[i + d] == m[d];
    assert m[e] != NEWLINE;
  }

  /** A marker counts once, first at `i`, exactly when it stands there and nowhere else. */
  lemma CountOneIff(data: string, m: string, i: nat)
    requires Marker(m)
    ensures Count(data, m) == 1 && Find(data, m, 0) == i <==> OnlyAt(data, m, i)
  {
    var f := Find(data, m, 0);
    if f < |data| {
      forall j | f < j < f + |m| ensures !At(data, m, j) { NoOverlap(data, m, f, j); }
      var next := Find(data, m, f + |m|);
      assert Count(data, m) == 1 + CountFrom(data, m, f + |m|);
      assert CountFrom(data, m, f + |m|) == 0 <==> next == |data|;
      if next == |data| { assert OnlyAt(data, m, f); } else { assert At(data, m, next) && next != f; }
    } else {
      NowhereIff(data, m);
    }
  }

  /** Every line is a comment exactly when two slashes stand wherever a line begins. */
  lemma {:induction false} AllCommentsIff(s: string)
    ensures AllComments(s) <==> Commented(s, 0)
    decreases |s|
  {
    if s != "" {
      var k := NextBreak(s, 0);
      var n := if k == |s| then k else if s[k] == '\r' && k + 1 < |s| && s[k + 1] == NEWLINE then k + 2 else k + 1;
      AllCommentsIff(s[n..]);
      FirstLineSlashes(s, k);
      NoStartBefore(s, k, n);
      FirstAndLater(s, n);
      LaterLines(s, n);
    }
  }

  lemma FirstLineSlashes(s: string, k: nat)
    requires k == NextBreak(s, 0)
    ensures "//" <= s[..k] <==> Slashes(s, 0)
  {
    if Slashes(s, 0) && k < |s| { assert s[k] != '/'; }
  }

  lemma NoStartBefore(s: string, k: nat, n: nat)
    requires s != "" && k == NextBreak(s, 0)
    requires n == if k == |s| then k else if s[k] == '\r' && k + 1 < |s| && s[k + 1] == NEWLINE then k + 2 else k + 1
    ensures 0 < n <= |s| && (n < |s| ==> LineStart(s, n)) && forall i: nat :: 0 < i < n ==> !LineStart(s, i)
  {
    forall i: nat | 0 < i < n ensures !LineStart(s, i) { assert i - 1 < k ==> !Break(s[i - 1]); }
  }

  lemma FirstAndLater(s: string, n: nat)
    requires s != "" && 0 < n && forall i: nat :: 0 < i < n ==> !LineStart(s, i)
    ensures Commented(s, 0) <==> Slashes(s, 0) && Commented(s, n)
  {
    assert LineStart(s, 0);
  }

  lemma LaterLines(s: string, n: nat)
    requires 0 < n <= |s| && (n < |s| ==> LineStart(s, n))
    ensures Commented(s[n..], 0) <==> Commented(s, n)
  {
    if Commented(s, n) {
      forall i: nat | LineStart(s[n..], i) ensures Slashes(s[n..], i) { LaterLine(s, n, n + i); }
    }
    if Commented(s[n..], 0) {
      forall i: nat | n <= i && LineStart(s, i) ensures Slashes(s, i) { LaterLine(s, n, i); }
    }
  }

  lemma LaterLine(s: string, n: nat, i: nat)
    requires 0 < n <= i && n <= |s| && (n < |s| ==> LineStart(s, n))
    ensures LineStart(s, i) == LineStart(s[n..], i - n) && Slashes(s, i) == Slashes(s[n..], i - n)
  {
    if i < |s| {
      assert s[n..][i - n] == s[i];
      if n < i { assert s[n..][i - n - 1] == s[i - 1]; }
      if i + 1 < |s| { assert s[n..][i - n + 1] == s[i + 1]; }
    }
  }

  lemma DataDivides(k: Markers, data: string, notice: string, body: string)
    requires ValidMarkers(k)
    ensures SplitData(k, data) == Ok((body, notice)) <==> Noticed(k, data, notice, body)
  {
    NowhereIff(data, k.open);
    NowhereIff(data, k.close);
    if Nowhere(data, k.open) && Nowhere(data, k.close) {
      assert data == "" + data;
      if Noticed(k, data, notice, body) { assert notice == "" && body == data; }
    } else {
      ManagedIff(k, data, notice, body);
    }
  }

  lemma ManagedIff(k: Markers, data: string, notice: string, body: string)
    requires ValidMarkers(k) && !(Nowhere(data, k.open) && Nowhere(data, k.close))
    ensures SplitManaged(k, data) == Ok((body, notice)) <==> Noticed(k, data, notice, body)
  {
    if SplitManaged(k, data) == Ok((body, notice)) { ManagedIsNoticed(k, data, notice, body); }
    if Noticed(k, data, notice, body) { NoticedIsManaged(k, data, notice, body); }
  }

  lemma ManagedIsNoticed(k: Markers, data: string, notice: string, body: string)
    requires ValidMarkers(k) && SplitManaged(k, data) == Ok((body, notice))
    ensures Noticed(k, data, notice, body)
  {
    var i := Find(data, k.close, 0);
    CountOneIff(data, k.close, i);
    OpensFirst(k.open, data);
    CountOneIff(data, k.open, 0);
    assert Find(data, k.open, 0) == 0;
    AllCommentsIff(notice);
    assert data == data[..i + |k.close|] + data[i + |k.close|..];
  }

  lemma NoticedIsManaged(k: Markers, data: string, notice: string, body: string)
    requires ValidMarkers(k) && Noticed(k, data, notice, body) && notice != ""
    ensures SplitManaged(k, data) == Ok((body, notice))
  {
    CountOneIff(data, k.open, 0);
    CountOneIff(data, k.close, |notice| - |k.close|);
    AllCommentsIff(notice);
    assert data[..|notice|] == notice && data[|notice|..] == body;
    assert k.open == data[..|k.open|];
  }

  /** Parsing gives exactly the parts of the bundle: nothing of the file is lost or changed. */
  lemma SplitExactlyIff(k: Markers, file: string, p: Parts)
    requires ValidMarkers(k)
    ensures SplitNotice(k, file) == Ok(p) <==> Divided(k, file, p)
  {
    if SplitNotice(k, file) == Ok(p) { SplitDivides(k, file, p); }
    if Divided(k, file, p) { DividedSplits(k, file, p, p.notice + p.body); }
  }

  lemma SplitDivides(k: Markers, file: string, p: Parts)
    requires ValidMarkers(k) && SplitNotice(k, file) == Ok(p)
    ensures Divided(k, file, p)
  {
    var n := SplitFrom(k, file, p);
    ShebangIs(file, n);
    DataDivides(k, file[n..], p.notice, p.body);
    assert file == file[..n] + file[n..];
  }

  lemma SplitFrom(k: Markers, file: string, p: Parts) returns (n: nat)
    requires ValidMarkers(k) && SplitNotice(k, file) == Ok(p)
    ensures AfterShebang(file) == Ok(n) && n <= |file| && p.shebang == file[..n] && SplitData(k, file[n..]) == Ok((p.body, p.notice))
    ensures n > 0 <==> "#!" <= file
  {
    n := AfterShebang(file).value;
  }

  lemma DividedSplits(k: Markers, file: string, p: Parts, data: string)
    requires ValidMarkers(k) && Divided(k, file, p) && data == p.notice + p.body
    ensures SplitNotice(k, file) == Ok(p)
  {
    if p.shebang == "" { assert file == data; }
    SplitsShebang(p.shebang, data);
    DataDivides(k, data, p.notice, p.body);
  }

  lemma LineCommentFirst(c: string, rest: string)
    requires LineComment(c)
    ensures AllComments(c + rest) == AllComments(rest)
  {
    var s := c + rest;
    assert forall j | 0 <= j < |c| :: s[j] == c[j] && c[j] in c;
    assert forall j | 0 <= j < |c| - 1 :: !Break(s[j]);
    assert Break(s[|c| - 1]);
    assert NextBreak(s, 0) == |c| - 1;
    assert "//" <= s[..|c| - 1];
    assert s[|c|..] == rest;
  }

  lemma CommentLineIsComment(line: string)
    requires NEWLINE !in line && '\r' !in line
    ensures LineComment(CommentLine(line))
  {
    CommentLineIs(line);
  }

  lemma {:induction false} CommentsAreComments(lines: seq<string>, rest: string)
    requires Physical(lines)
    ensures AllComments(Comments(lines) + rest) == AllComments(rest)
  {
    if lines == [] {
      assert Comments(lines) + rest == rest;
    } else {
      assert Comments(lines) + rest == CommentLine(lines[0]) + (Comments(lines[1..]) + rest);
      CommentLineIsComment(lines[0]);
      LineCommentFirst(CommentLine(lines[0]), Comments(lines[1..]) + rest);
      CommentsAreComments(lines[1..], rest);
    }
  }

  lemma NoticeIsComments(k: Markers, lines: seq<string>)
    requires ValidMarkers(k) && Physical(lines)
    ensures AllComments(Render(k, lines))
  {
    assert k.close + "" == k.close;
    LineCommentFirst(k.close, "");
    CommentsAreComments(lines, k.close);
    LineCommentFirst(k.open, Comments(lines) + k.close);
  }

  lemma SplitsShebang(s: string, rest: string)
    requires Shebang(s) && (s == "" ==> !("#!" <= rest))
    ensures AfterShebang(s + rest) == Ok(|s|) && (s + rest)[..|s|] == s && (s + rest)[|s|..] == rest
  {
    var file := s + rest;
    if s == "" {
      assert file == rest;
    } else {
      assert file[..2] == s[..2];
      assert file[|s| - 1] == NEWLINE;
      assert forall i | 0 <= i < |s| - 1 :: file[..|s| - 1][i] == s[i];
      FirstNewlineIs(file, |s| - 1);
    }
  }

  lemma Opening(data: string, m: string)
    requires m != "" && m <= data
    ensures Occurs(data, m)
  {
    assert At(data, m, 0);
  }

  lemma SplitDataUndoesRender(k: Markers, lines: seq<string>, body: string)
    requires ValidMarkers(k) && Physical(lines)
    ensures SplitData(k, Render(k, lines) + body) == Ok((body, Render(k, lines))) <==>
            !EndsInMarker(k, lines) && !Occurs(body, k.open) && !Occurs(body, k.close)
  {
    var notice := Render(k, lines);
    var data := notice + body;
    NoticeCounts(k, lines, body);
    NoticeIsComments(k, lines);
    CommentsContain(lines, k.open);
    CommentsContain(lines, k.close);
    assert k.open <= data;
    Opening(data, k.open);
    CountZeroIff(body, k.open);
    CountZeroIff(body, k.close);
    CountZeroIff(Comments(lines), k.open);
    CountZeroIff(Comments(lines), k.close);
    assert data[..|notice|] == notice && data[|notice|..] == body;
  }

  /** Print and parse: the parts of shebang, printed notice and body are those three exactly
      when no printed line ends with a marker and the body contains none. */
  lemma SplitUndoesRenderIff(k: Markers, shebang: string, lines: seq<string>, body: string)
    requires ValidMarkers(k) && Shebang(shebang) && Physical(lines)
    ensures SplitNotice(k, shebang + (Render(k, lines) + body)) == Ok(Parts(shebang, body, Render(k, lines))) <==>
            !EndsInMarker(k, lines) && !Occurs(body, k.open) && !Occurs(body, k.close)
  {
    var data := Render(k, lines) + body;
    assert data[0] == k.open[0] == '/';
    SplitsShebang(shebang, data);
    SplitDataUndoesRender(k, lines, body);
  }

  /** The body of a parsed bundle is always free of markers. */
  lemma ParsedBodyIsFree(k: Markers, file: string)
    requires ValidMarkers(k) && SplitNotice(k, file).Ok?
    ensures var p := SplitNotice(k, file).value;
            Shebang(p.shebang) && !Occurs(p.body, k.open) && !Occurs(p.body, k.close)
  {
    var n := AfterShebang(file).value;
    ShebangIs(file, n);
    SplitDataFree(k, file[n..]);
  }

  lemma ShebangIs(file: string, n: nat)
    requires AfterShebang(file) == Ok(n) && n <= |file|
    ensures Shebang(file[..n])
  {
    if n > 0 {
      var s := file[..n];
      assert forall i | 0 <= i < n - 1 :: s[i] == file[..n - 1][i];
      assert s[..2] == file[..2];
    }
  }

  lemma SplitDataFree(k: Markers, data: string)
    requires ValidMarkers(k) && SplitData(k, data).Ok?
    ensures !Occurs(SplitData(k, data).value.0, k.open) && !Occurs(SplitData(k, data).value.0, k.close)
  {
    if Occurs(data, k.open) || Occurs(data, k.close) { ManagedBodyFree(k, data, SplitManaged(k, data).value.0); }
  }

  lemma ManagedBodyFree(k: Markers, data: string, body: string)
    requires ValidMarkers(k) && SplitManaged(k, data).Ok? && body == SplitManaged(k, data).value.0
    ensures !Occurs(body, k.open) && !Occurs(body, k.close)
  {
    var end := ManagedParts(k, data);
    CountZeroIff(data, k.close);
    BodyAfterNotice(k, data, end);
  }

  lemma ManagedParts(k: Markers, data: string) returns (end: nat)
    requires k.open != "" && k.close != "" && SplitManaged(k, data).Ok?
    ensures k.open <= data && Count(data, k.open) == 1 && Count(data, k.close) == 1
    ensures end == Find(data, k.close, 0) + |k.close| <= |data| && SplitManaged(k, data).value.0 == data[end..]
  {
    end := Find(data, k.close, 0) + |k.close|;
  }

  lemma BodyAfterNotice(k: Markers, data: string, end: nat)
    requires ValidMarkers(k) && k.open <= data && Occurs(data, k.close) && end == Find(data, k.close, 0) + |k.close| <= |data|
    requires Count(data, k.open) == 1 && Count(data, k.close) == 1
    ensures !Occurs(data[end..], k.open) && !Occurs(data[end..], k.close)
  {
    NoticeHasBoth(k, data, end);
    var notice, body := data[..end], data[end..];
    assert data == notice + body;
    CountsAdd(notice, body, k.open, data);
    CountsAdd(notice, body, k.close, data);
    CountZeroIff(body, k.open);
    CountZeroIff(body, k.close);
  }

  lemma AtPrefix(data: string, m: string, i: nat, n: nat)
    requires m != "" && At(data, m, i) && i + |m| <= n <= |data|
    ensures Count(data[..n], m) >= 1
  {
    assert At(data[..n], m, i);
    assert Find(data[..n], m, 0) <= i;
  }

  lemma OpensFirst(m: string, data: string)
    requires m <= data
    ensures At(data, m, 0)
  {
    assert m == data[..|m|];
    assert forall d | 0 <= d < |m| :: data[0 + d] == m[d];
  }

  lemma ClosesLater(k: Markers, data: string, i: nat)
    requires ValidMarkers(k) && k.open <= data && i < |data| && At(data, k.close, i)
    ensures i >= |k.open|
  {
    OneLineOnce(k.open, k.close);
    var rest := data[|k.open|..];
    assert data == k.open + rest;
    if i < |k.open| { AtEarlier(k.open, rest, k.close, i); }
  }

  /** The parsed notice holds each marker: it opens with one and closes with the other. */
  lemma NoticeHasBoth(k: Markers, data: string, end: nat)
    requires ValidMarkers(k) && k.open <= data && Occurs(data, k.close) && end == Find(data, k.close, 0) + |k.close|
    ensures end <= |data| && Whole(data[..end]) && Count(data[..end], k.open) >= 1 && Count(data[..end], k.close) >= 1
  {
    NoticeWhole(k, data, Find(data, k.close, 0), end);
  }

  lemma EndsWhole(data: string, m: string, i: nat, end: nat)
    requires Marker(m) && At(data, m, i) && end == i + |m|
    ensures end <= |data| && Whole(data[..end])
  {
    var last := |m| - 1;
    assert data[i + last] == m[last] == NEWLINE;
  }

  lemma NoticeWhole(k: Markers, data: string, i: nat, end: nat)
    requires ValidMarkers(k) && k.open <= data && i < |data| && At(data, k.close, i) && end == i + |k.close|
    ensures end <= |data| && Whole(data[..end]) && Count(data[..end], k.open) >= 1 && Count(data[..end], k.close) >= 1
  {
    EndsWhole(data, k.close, i, end);
    AtPrefix(data, k.close, i, end);
    ClosesLater(k, data, i);
    OpensFirst(k.open, data);
    AtPrefix(data, k.open, 0, end);
  }

  // --------------------------------------------------------------------- processing

  /** A bundle whose notice is managed, or carried by its own source. */
  datatype Bundle = Bundle(path: string, managed: bool, lines: seq<string>)

  /** What `checks` says of a bundle's body: its components and its lockfile are in order,
      and an intrinsic notice is there exactly once. */
  type Checks = (Bundle, string) -> bool

  function Desired(b: Bundle, checks: Checks, file: string): Result<string> {
    var parts :- SplitNotice(MARKERS, file);
    var _ :- Check(checks(b, parts.body));
    if b.managed then Ok(parts.shebang + (Render(MARKERS, b.lines) + parts.body))
    else if parts.notice == "" then Ok(file) else Refused
  }

  /** What is desired of a file: its own shebang line and its own code around the notice of these
      lines, or, where the source carries the notice, the file itself. */
  ghost predicate Wanted(b: Bundle, checks: Checks, file: string, written: string, p: Parts) {
    && Divided(MARKERS, file, p) && checks(b, p.body)
    && (if b.managed then written == p.shebang + (Render(MARKERS, b.lines) + p.body) else p.notice == "" && written == file)
  }

  /** A bundle has a desired content exactly when it can be divided, its code is in order, and an
      intrinsic notice is not doubled by a managed one. */
  lemma DesiredIff(b: Bundle, checks: Checks, file: string, written: string)
    ensures Desired(b, checks, file) == Ok(written) <==> exists p :: Wanted(b, checks, file, written, p)
  {
    MarkersAreValid();
    if Desired(b, checks, file) == Ok(written) {
      var p := SplitNotice(MARKERS, file).value;
      SplitExactlyIff(MARKERS, file, p);
      assert Wanted(b, checks, file, written, p);
    }
    if exists p :: Wanted(b, checks, file, written, p) {
      var p :| Wanted(b, checks, file, written, p);
      SplitExactlyIff(MARKERS, file, p);
    }
  }

  /** Writing a bundle settles: for physical lines that end in no marker, the file written holds
      shebang and code of the old one, and is its own desired content. */
  lemma WrittenIsSettled(b: Bundle, checks: Checks, file: string)
    requires Desired(b, checks, file).Ok? && Physical(b.lines) && !EndsInMarker(MARKERS, b.lines)
    ensures var written := Desired(b, checks, file).value;
            && Desired(b, checks, written) == Ok(written)
            && SplitNotice(MARKERS, written).Ok?
            && SplitNotice(MARKERS, written).value.shebang == SplitNotice(MARKERS, file).value.shebang
            && SplitNotice(MARKERS, written).value.body == SplitNotice(MARKERS, file).value.body
            && exists p :: Wanted(b, checks, file, written, p)
  {
    DesiredIff(b, checks, file, Desired(b, checks, file).value);
    var parts := SplitNotice(MARKERS, file).value;
    MarkersAreValid();
    ParsedBodyIsFree(MARKERS, file);
    SplitUndoesRenderIff(MARKERS, parts.shebang, b.lines, parts.body);
  }

  type Tree = map<string, string>

  /** The desired content of every selected bundle, or a refusal before anything is written. */
  function Prepared(tree: Tree, bundles: seq<Bundle>, checks: Checks): Result<seq<string>> {
    if bundles == [] then Ok([])
    else
      var _ :- Check(bundles[0].path in tree);
      var first :- Desired(bundles[0], checks, tree[bundles[0].path]);
      var rest :- Prepared(tree, bundles[1..], checks);
      Ok([first] + rest)
  }

  function Written(tree: Tree, bundles: seq<Bundle>, contents: seq<string>): Tree
    requires |bundles| == |contents|
    decreases |bundles|
  {
    if bundles == [] then tree else Written(tree[bundles[0].path := contents[0]], bundles[1..], contents[1..])
  }

  predicate Stale(tree: Tree, bundles: seq<Bundle>, contents: seq<string>)
    requires |bundles| == |contents|
  {
    exists k | 0 <= k < |bundles| :: bundles[k].path !in tree || tree[bundles[k].path] != contents[k]
  }

  /** The paths of the bundles that differ from their desired content, in order. */
  function StalePaths(tree: Tree, bundles: seq<Bundle>, contents: seq<string>): (stale: seq<string>)
    requires |bundles| == |contents|
    ensures stale == [] <==> !Stale(tree, bundles, contents)
    decreases |bundles|
  {
    if bundles == [] then []
    else
      var k := |bundles| - 1;
      var before := StalePaths(tree, bundles[..k], contents[..k]);
      if bundles[k].path !in tree || tree[bundles[k].path] != contents[k] then before + [bundles[k].path] else before
  }

  /** Whether one bundle of several is stale depends on nothing but that bundle, and they are
      reported in their order. */
  lemma {:induction false} StaleInOrder(tree: Tree, bundles: seq<Bundle>, contents: seq<string>, more: seq<Bundle>, later: seq<string>)
    requires |bundles| == |contents| && |more| == |later|
    ensures StalePaths(tree, bundles + more, contents + later) == StalePaths(tree, bundles, contents) + StalePaths(tree, more, later)
    decreases |more|
  {
    if more == [] {
      assert bundles + more == bundles && contents + later == contents;
    } else {
      var k := |more| - 1;
      assert (bundles + more)[..|bundles + more| - 1] == bundles + more[..k];
      assert (contents + later)[..|bundles + more| - 1] == contents + later[..k];
      StaleInOrder(tree, bundles, contents, more[..k], later[..k]);
    }
  }

  lemma OneStale(tree: Tree, b: Bundle, content: string)
    ensures StalePaths(tree, [b], [content]) == if b.path in tree && tree[b.path] == content then [] else [b.path]
  {
    assert StalePaths(tree, [b][..0], [content][..0]) == [];
  }

  predicate DistinctPaths(bundles: seq<Bundle>) {
    forall i, j | 0 <= i < j < |bundles| :: bundles[i].path != bundles[j].path
  }

  lemma {:induction false} PreparedAt(tree: Tree, bundles: seq<Bundle>, checks: Checks)
    requires Prepared(tree, bundles, checks).Ok?
    ensures var contents := Prepared(tree, bundles, checks).value;
            && |contents| == |bundles|
            && forall k | 0 <= k < |bundles| ::
                 bundles[k].path in tree && Desired(bundles[k], checks, tree[bundles[k].path]) == Ok(contents[k])
  {
    if bundles != [] { PreparedAt(tree, bundles[1..], checks); }
  }

  lemma {:induction false} PreparedFrom(tree: Tree, bundles: seq<Bundle>, checks: Checks, contents: seq<string>)
    requires |contents| == |bundles|
    requires forall k | 0 <= k < |bundles| ::
               bundles[k].path in tree && Desired(bundles[k], checks, tree[bundles[k].path]) == Ok(contents[k])
    ensures Prepared(tree, bundles, checks) == Ok(contents)
  {
    if bundles != [] {
      PreparedFrom(tree, bundles[1..], checks, contents[1..]);
      assert contents == [contents[0]] + contents[1..];
    }
  }

  lemma {:induction false} WrittenAt(tree: Tree, bundles: seq<Bundle>, contents: seq<string>)
    requires |bundles| == |contents| && DistinctPaths(bundles)
    decreases |bundles|
    ensures forall k | 0 <= k < |bundles| ::
              bundles[k].path in Written(tree, bundles, contents) && Written(tree, bundles, contents)[bundles[k].path] == contents[k]
    ensures forall p | forall k | 0 <= k < |bundles| :: bundles[k].path != p ::
              (p in Written(tree, bundles, contents) <==> p in tree) && (p in tree ==> Written(tree, bundles, contents)[p] == tree[p])
  {
    if bundles != [] {
      WrittenAt(tree[bundles[0].path := contents[0]], bundles[1..], contents[1..]);
      assert forall k | 0 <= k < |bundles[1..]| :: bundles[1..][k] == bundles[k + 1];
      assert forall k | 0 < k < |bundles| :: bundles[k] == bundles[1..][k - 1] && contents[k] == contents[1..][k - 1];
    }
  }

  /** After a write over any selection of bundles, checking the same selection finds nothing
      stale, so a second write changes nothing. */
  lemma WriteThenCheckPasses(tree: Tree, bundles: seq<Bundle>, checks: Checks)
    requires Prepared(tree, bundles, checks).Ok? && DistinctPaths(bundles)
    requires forall k | 0 <= k < |bundles| :: Physical(bundles[k].lines) && !EndsInMarker(MARKERS, bundles[k].lines)
    ensures |Prepared(tree, bundles, checks).value| == |bundles|
    ensures var contents := Prepared(tree, bundles, checks).value;
            var written := Written(tree, bundles, contents);
            && Prepared(written, bundles, checks) == Ok(contents) && !Stale(written, bundles, contents)
  {
    PreparedAt(tree, bundles, checks);
    var contents := Prepared(tree, bundles, checks).value;
    var written := Written(tree, bundles, contents);
    WrittenAt(tree, bundles, contents);
    forall k | 0 <= k < |bundles| ensures Desired(bundles[k], checks, written[bundles[k].path]) == Ok(contents[k]) {
      WrittenIsSettled(bundles[k], checks, tree[bundles[k].path]);
    }
    PreparedFrom(written, bundles, checks, contents);
  }

  class Checkout {
    var tree: Tree

    constructor (tree: Tree)
      ensures this.tree == tree
    {
      this.tree := tree;
    }

    /** The desired content of every selected bundle. */
    method Prepare(bundles: seq<Bundle>, checks: Checks) returns (contents: Result<seq<string>>)
      ensures contents == Prepared(tree, bundles, checks)
    {
      var found: seq<string> := [];
      ghost var whole := Prepared(tree, bundles, checks);
      assert bundles[0..] == bundles;
      assert whole == Prefixed([], whole) by { if whole.Ok? { assert [] + whole.value == whole.value; } }
      for k := 0 to |bundles|
        invariant whole == Prefixed(found, Prepared(tree, bundles[k..], checks))
      {
        PreparedStep(tree, bundles, k, checks, found);
        if bundles[k].path !in tree { return Refused; }
        var desired := Desired(bundles[k], checks, tree[bundles[k].path]);
        if desired.Refused? { return Refused; }
        found := found + [desired.value];
      }
      assert found + [] == found;
      contents := Ok(found);
    }

    /** The paths of the bundles that differ from their desired content. */
    method FindStale(bundles: seq<Bundle>, contents: seq<string>) returns (stale: seq<string>)
      requires |bundles| == |contents|
      ensures stale == StalePaths(tree, bundles, contents)
    {
      stale := [];
      for k := 0 to |bundles|
        invariant stale == StalePaths(tree, bundles[..k], contents[..k])
      {
        assert bundles[..k + 1][..k] == bundles[..k] && contents[..k + 1][..k] == contents[..k];
        if bundles[k].path !in tree || tree[bundles[k].path] != contents[k] { stale := stale + [bundles[k].path]; }
      }
      assert bundles[..|bundles|] == bundles && contents[..|contents|] == contents;
    }

    /** Validate every selected bundle, then, if asked to, write those that are stale. */
    method Process(bundles: seq<Bundle>, checks: Checks, write: bool) returns (updated: Result<seq<string>>)
      modifies this
      ensures match Prepared(old(tree), bundles, checks)
              case Refused => updated.Refused? && tree == old(tree)
              case Ok(contents) =>
                && |contents| == |bundles|
                && (if write then
                      tree == Written(old(tree), bundles, contents) && updated == Ok(StalePaths(old(tree), bundles, contents))
                    else tree == old(tree) && updated == if Stale(old(tree), bundles, contents) then Refused else Ok([]))
    {
      var contents := Prepare(bundles, checks);
      if contents.Refused? { return Refused; }
      PreparedAt(tree, bundles, checks);
      var stale := FindStale(bundles, contents.value);
      if stale != [] && !write { return Refused; }
      if write {
        WriteAll(bundles, contents.value);
      }
      return Ok(if write then stale else []);
    }

    method WriteAll(bundles: seq<Bundle>, contents: seq<string>)
      requires |bundles| == |contents| && forall k | 0 <= k < |bundles| :: bundles[k].path in tree
      modifies this
      ensures tree == Written(old(tree), bundles, contents)
    {
      assert bundles[0..] == bundles && contents[0..] == contents;
      ghost var end := Written(tree, bundles, contents);
      for k := 0 to |bundles|
        invariant end == Written(tree, bundles[k..], contents[k..])
        invariant forall j | 0 <= j < |bundles| :: bundles[j].path in tree
      {
        assert bundles[k..][1..] == bundles[k + 1..] && contents[k..][1..] == contents[k + 1..];
        if tree[bundles[k].path] != contents[k] {
          tree := tree[bundles[k].path := contents[k]];
        } else {
          assert tree[bundles[k].path := contents[k]] == tree;
        }
      }
    }
  }

  function Prefixed(head: seq<string>, rest: Result<seq<string>>): Result<seq<string>> {
    match rest case Refused => Refused case Ok(tail) => Ok(head + tail)
  }

  /** One bundle more, after those that were prepared already. */
  lemma PreparedStep(tree: Tree, bundles: seq<Bundle>, k: nat, checks: Checks, found: seq<string>)
    requires k < |bundles|
    ensures var b := bundles[k];
            Prefixed(found, Prepared(tree, bundles[k..], checks)) ==
            if b.path !in tree || Desired(b, checks, tree[b.path]).Refused? then Refused
            else Prefixed(found + [Desired(b, checks, tree[b.path]).value], Prepared(tree, bundles[k + 1..], checks))
  {
    assert bundles[k..][0] == bundles[k] && bundles[k..][1..] == bundles[k + 1..];
    var b := bundles[k];
    if b.path in tree && Desired(b, checks, tree[b.path]).Ok? {
      PrefixedMore(found, Desired(b, checks, tree[b.path]).value, Prepared(tree, bundles[k + 1..], checks));
    }
  }

  lemma PrefixedMore(head: seq<string>, one: string, rest: Result<seq<string>>)
    ensures Prefixed(head, Prefixed([one], rest)) == Prefixed(head + [one], rest)
  {
    if rest.Ok? { assert head + ([one] + rest.value) == (head + [one]) + rest.value; }
  }
}
