/** The scanner that turns JSON with comments and trailing commas into JSON of the same
    length: comments are blanked, then commas before a closing bracket. */
module Jsonc {
  import opened Outcome
  import opened TextLines

  // ------------------------------------------------------------------- scanning

  /** One past the string literal whose inside begins at `i`, or the end of the text. */
  function PastString(text: string, i: nat): (j: nat)
    requires i <= |text|
    ensures i <= j <= |text|
    decreases |text| - i
  {
    if i == |text| then i
    else if text[i] == '\\' then (if i + 2 <= |text| then PastString(text, i + 2) else |text|)
    else if text[i] == '"' then i + 1
    else PastString(text, i + 1)
  }

  /** How many backslashes stand right before `q`, from `i` on. */
  function Backslashes(text: string, i: nat, q: nat): nat
    requires i <= q <= |text|
  {
    if q == i || text[q - 1] != '\\' then 0 else 1 + Backslashes(text, i, q - 1)
  }

  /** A quote that no backslash escapes. */
  predicate Closes(text: string, i: nat, q: nat)
    requires i <= q < |text|
  {
    text[q] == '"' && Backslashes(text, i, q) % 2 == 0
  }

  lemma {:induction false} OneFewer(text: string, i: nat, q: nat)
    requires i < q <= |text| && text[i] != '\\'
    ensures Backslashes(text, i, q) == Backslashes(text, i + 1, q)
  {
    if q > i + 1 { OneFewer(text, i, q - 1); }
  }

  lemma {:induction false} TwoFewer(text: string, i: nat, q: nat)
    requires i + 2 <= q <= |text| && text[i] == '\\'
    ensures Backslashes(text, i, q) in {Backslashes(text, i + 2, q), Backslashes(text, i + 2, q) + 2}
  {
    assert Backslashes(text, i, i + 1) == 1;
    if q > i + 2 { TwoFewer(text, i, q - 1); }
  }

  /** From `i` to before `j`, nothing but perhaps the last character closes the literal; and that one
      does, or the text ends at `j`. */
  predicate ClosedBy(text: string, i: nat, j: nat)
    requires i <= |text|
  {
    || (j == |text| && forall q | i <= q < |text| :: !Closes(text, i, q))
    || (i < j <= |text| && Closes(text, i, j - 1) && forall q | i <= q < j - 1 :: !Closes(text, i, q))
  }

  /** A literal ends after the first quote that an even number of backslashes stands before, or, if
      there is none, with the text. */
  lemma {:induction false} LiteralEnds(text: string, i: nat, j: nat)
    requires i <= |text| && j == PastString(text, i)
    ensures ClosedBy(text, i, j)
    decreases |text| - i
  {
    if i < |text| && text[i] == '\\' {
      if i + 2 <= |text| {
        LiteralEnds(text, i + 2, j);
        forall q | i + 2 <= q < |text| ensures Closes(text, i, q) == Closes(text, i + 2, q) { TwoFewer(text, i, q); }
        assert i + 1 < |text| ==> Backslashes(text, i, i + 1) == 1;
      }
    } else if i < |text| && text[i] != '"' {
      LiteralEnds(text, i + 1, j);
      forall q | i + 1 <= q < |text| ensures Closes(text, i, q) == Closes(text, i + 1, q) { OneFewer(text, i, q); }
    }
  }

  /** The next newline at or after `i`, or the end of the text. */
  function LineEnd(text: string, i: nat): (j: nat)
    requires i <= |text|
    ensures i <= j <= |text| && NEWLINE !in text[i..j] && (j < |text| ==> text[j] == NEWLINE)
    decreases |text| - i
  {
    if i == |text| || text[i] == NEWLINE then i else LineEnd(text, i + 1)
  }

  predicate Pair(text: string, i: nat, a: char, b: char) {
    i + 1 < |text| && text[i] == a && text[i + 1] == b
  }

  /** One past the next end of a block comment at or after `i`, if there is one. */
  function PastBlock(text: string, i: nat): (j: Option<nat>)
    requires i <= |text|
    ensures j.Some? ==> i < j.value <= |text|
    decreases |text| - i
  {
    if i == |text| then None
    else if Pair(text, i, '*', '/') then Some(i + 2)
    else PastBlock(text, i + 1)
  }

  /** What lies at a position: code, a string literal, or a comment, up to where. */
  datatype Piece = Code(end: nat) | Literal(end: nat) | Comment(end: nat) | Unterminated

  function PieceAt(text: string, i: nat): (p: Piece)
    requires i < |text|
    ensures !p.Unterminated? ==> i < p.end <= |text|
  {
    if text[i] == '"' then Literal(PastString(text, i + 1))
    else if Pair(text, i, '/', '/') then Comment(LineEnd(text, i))
    else if Pair(text, i, '/', '*') then
      (match PastBlock(text, i + 2) case None => Unterminated case Some(j) => Comment(j))
    else Code(i + 1)
  }

  lemma {:induction false} BlockEnds(text: string, i: nat)
    requires i <= |text|
    ensures match PastBlock(text, i)
            case None => forall k | i <= k < |text| - 1 :: !Pair(text, k, '*', '/')
            case Some(j) => i + 2 <= j && Pair(text, j - 2, '*', '/') && forall k | i <= k < j - 2 :: !Pair(text, k, '*', '/')
    decreases |text| - i
  {
    if i < |text| && !Pair(text, i, '*', '/') { BlockEnds(text, i + 1); }
  }

  /** What lies where: a quote begins a literal, which ends with its closing quote or the text; two
      slashes a comment, which ends before the next newline; slash and star one that ends with
      the next star and slash, which have to be there; and every other character is code. */
  lemma PieceExactly(text: string, i: nat, p: Piece)
    requires i < |text| && p == PieceAt(text, i)
    ensures text[i] == '"' ==> p.Literal? && ClosedBy(text, i + 1, p.end)
    ensures Pair(text, i, '/', '/') ==>
              p.Comment? && (p.end < |text| ==> text[p.end] == NEWLINE) && forall k | i <= k < p.end :: text[k] != NEWLINE
    ensures Pair(text, i, '/', '*') ==>
              if p.Unterminated? then forall k | i + 2 <= k < |text| - 1 :: !Pair(text, k, '*', '/')
              else p.Comment? && i + 4 <= p.end && Pair(text, p.end - 2, '*', '/') && forall k | i + 2 <= k < p.end - 2 :: !Pair(text, k, '*', '/')
    ensures text[i] != '"' && !Pair(text, i, '/', '/') && !Pair(text, i, '/', '*') ==> p == Code(i + 1)
  {
    if text[i] == '"' { LiteralEnds(text, i + 1, PastString(text, i + 1)); }
    else if Pair(text, i, '/', '*') { BlockEnds(text, i + 2); }
    else if Pair(text, i, '/', '/') {
      var j := LineEnd(text, i);
      forall k | i <= k < j ensures text[k] != NEWLINE { assert text[i..j][k - i] == text[k]; }
    }
  }

  /** A comment's characters: newlines stay, all others become spaces. */
  function Blanked(s: string): (b: string)
    ensures |b| == |s| && forall k | 0 <= k < |s| :: b[k] == if s[k] == NEWLINE then NEWLINE else ' '
  {
    seq(|s|, k requires 0 <= k < |s| => if s[k] == NEWLINE then NEWLINE else ' ')
  }

  /** The text from `i` on with its comments blanked. */
  function Uncommented(text: string, i: nat): Result<string>
    requires i <= |text|
    decreases |text| - i
  {
    if i == |text| then Ok("")
    else match PieceAt(text, i)
         case Unterminated => Refused
         case Comment(j) => Then(Blanked(text[i..j]), Uncommented(text, j))
         case Literal(j) => Then(text[i..j], Uncommented(text, j))
         case Code(j) => Then(text[i..j], Uncommented(text, j))
  }

  function Then(head: string, rest: Result<string>): Result<string> {
    match rest case Refused => Refused case Ok(tail) => Ok(head + tail)
  }

  /** The next character from `i` on that is no white space. */
  function Solid(text: string, i: nat): (j: nat)
    requires i <= |text|
    ensures i <= j <= |text| && (j < |text| ==> !IsSpace(text[j])) && forall k | i <= k < j :: IsSpace(text[k])
    decreases |text| - i
  {
    if i == |text| || !IsSpace(text[i]) then i else Solid(text, i + 1)
  }

  /** A comma whose next solid character closes a list or an object. */
  predicate Trailing(text: string, i: nat)
    requires i < |text|
  {
    text[i] == ',' && var j := Solid(text, i + 1); j < |text| && (text[j] == ']' || text[j] == '}')
  }

  /** The text from `i` on with its trailing commas blanked; only strings are skipped. */
  function Decommaed(text: string, i: nat): (s: string)
    requires i <= |text|
    ensures |s| == |text| - i
    decreases |text| - i
  {
    if i == |text| then ""
    else if text[i] == '"' then text[i..PastString(text, i + 1)] + Decommaed(text, PastString(text, i + 1))
    else [if Trailing(text, i) then ' ' else text[i]] + Decommaed(text, i + 1)
  }

  function Cleaned(text: string): Result<string> {
    var uncommented :- Uncommented(text, 0);
    Ok(Decommaed(uncommented, 0))
  }

  // -------------------------------------------------- where strings and comments are

  datatype Region = InCode | InLiteral | InComment

  function Repeat<T>(x: T, n: nat): (s: seq<T>)
    ensures |s| == n && forall k | 0 <= k < n :: s[k] == x
  {
    seq(n, _ => x)
  }

  /** The region of each character from `i` on, in a text without an unterminated comment. */
  function Regions(text: string, i: nat): Result<seq<Region>>
    requires i <= |text|
    decreases |text| - i
  {
    if i == |text| then Ok([])
    else match PieceAt(text, i)
         case Unterminated => Refused
         case Comment(j) => ThenRegions(Repeat(InComment, j - i), Regions(text, j))
         case Literal(j) => ThenRegions(Repeat(InLiteral, j - i), Regions(text, j))
         case Code(j) => ThenRegions(Repeat(InCode, j - i), Regions(text, j))
  }

  function ThenRegions(head: seq<Region>, rest: Result<seq<Region>>): Result<seq<Region>> {
    match rest case Refused => Refused case Ok(tail) => Ok(head + tail)
  }

  function AfterComments(c: char, r: Region): char {
    if r == InComment && c != NEWLINE then ' ' else c
  }

  /** `s` is the text from `i` on, as regions `r` have it after comments are blanked. */
  ghost predicate CommentsDone(text: string, i: nat, s: string, r: seq<Region>) {
    |s| == |r| && i + |s| <= |text| && forall k | 0 <= k < |s| :: s[k] == AfterComments(text[i + k], r[k])
  }

  lemma CommentsDoneTogether(text: string, i: nat, s: string, r: seq<Region>, tail: string, rest: seq<Region>)
    requires CommentsDone(text, i, s, r) && CommentsDone(text, i + |s|, tail, rest)
    ensures CommentsDone(text, i, s + tail, r + rest)
  {
    forall k | 0 <= k < |s + tail| ensures (s + tail)[k] == AfterComments(text[i + k], (r + rest)[k]) {
      if k >= |s| { assert (s + tail)[k] == tail[k - |s|] && text[i + k] == text[i + |s| + (k - |s|)]; }
    }
  }

  /** Character by character: comments become white space of the same shape, and nothing
      else changes. */
  lemma {:induction false} UncommentedExactly(text: string, i: nat)
    requires i <= |text|
    ensures Uncommented(text, i).Ok? <==> Regions(text, i).Ok?
    ensures Uncommented(text, i).Ok? ==>
              |Uncommented(text, i).value| == |text| - i
              && CommentsDone(text, i, Uncommented(text, i).value, Regions(text, i).value)
    decreases |text| - i
  {
    if i < |text| {
      var p := PieceAt(text, i);
      if !p.Unterminated? {
        UncommentedExactly(text, p.end);
        if Uncommented(text, p.end).Ok? {
          var head := if p.Comment? then Blanked(text[i..p.end]) else text[i..p.end];
          var r := if p.Comment? then InComment else if p.Literal? then InLiteral else InCode;
          CommentsDoneTogether(text, i, head, Repeat(r, p.end - i), Uncommented(text, p.end).value, Regions(text, p.end).value);
        }
      }
    }
  }

  // ------------------------------------------------------------ strings stay strings

  /** The end of a string literal depends only on the characters up to it. */
  lemma {:induction false} PastStringAgrees(s: string, t: string, i: nat)
    requires |s| == |t| && i <= |s| && s[i..PastString(s, i)] == t[i..PastString(s, i)]
    ensures PastString(t, i) == PastString(s, i)
    decreases |s| - i
  {
    var j := PastString(s, i);
    if i < |s| {
      assert s[i] == s[i..j][0] && t[i] == t[i..j][0];
      if s[i] == '\\' {
        if i + 2 <= |s| {
          assert s[i + 2..j] == s[i..j][2..] && t[i + 2..j] == t[i..j][2..];
          PastStringAgrees(s, t, i + 2);
        }
      } else if s[i] != '"' {
        assert s[i + 1..j] == s[i..j][1..] && t[i + 1..j] == t[i..j][1..];
        PastStringAgrees(s, t, i + 1);
      }
    }
  }

  /** `clean` is `text` with the comments from `i` on blanked. */
  ghost predicate CleanFrom(text: string, clean: string, i: nat)
    requires i <= |text|
  {
    |clean| == |text| && Uncommented(text, i) == Ok(clean[i..])
  }

  lemma SplitClean(text: string, clean: string, i: nat)
    requires i < |text| && CleanFrom(text, clean, i)
    ensures var p := PieceAt(text, i);
            && !p.Unterminated? && CleanFrom(text, clean, p.end)
            && clean[i..p.end] == if p.Comment? then Blanked(text[i..p.end]) else text[i..p.end]
  {
    var p := PieceAt(text, i);
    var head := if p.Comment? then Blanked(text[i..p.end]) else text[i..p.end];
    var tail := Uncommented(text, p.end).value;
    assert clean[i..] == head + tail;
    assert clean[i..p.end] == clean[i..][..p.end - i];
    assert clean[p.end..] == clean[i..][p.end - i..];
  }

  /** After a comment is blanked, its place is code all through. */
  lemma {:induction false} BlankIsCode(clean: string, i: nat, j: nat)
    requires i <= j <= |clean| && forall k | i <= k < j :: clean[k] == ' ' || clean[k] == NEWLINE
    ensures Uncommented(clean, i) == Then(clean[i..j], Uncommented(clean, j))
    ensures Regions(clean, i) == ThenRegions(Repeat(InCode, j - i), Regions(clean, j))
    decreases j - i
  {
    if i < j {
      BlankIsCode(clean, i + 1, j);
      assert PieceAt(clean, i) == Code(i + 1);
      OneMore(clean, i, j, Uncommented(clean, j), Regions(clean, j));
    } else {
      Nothing(clean, i, Uncommented(clean, j), Regions(clean, j));
    }
  }

  lemma OneMore(clean: string, i: nat, j: nat, rest: Result<string>, regions: Result<seq<Region>>)
    requires i < j <= |clean|
    ensures Then(clean[i..i + 1], Then(clean[i + 1..j], rest)) == Then(clean[i..j], rest)
    ensures ThenRegions(Repeat(InCode, 1), ThenRegions(Repeat(InCode, j - (i + 1)), regions)) == ThenRegions(Repeat(InCode, j - i), regions)
  {
    if rest.Ok? { assert clean[i..i + 1] + (clean[i + 1..j] + rest.value) == clean[i..j] + rest.value; }
    if regions.Ok? {
      assert Repeat(InCode, 1) + (Repeat(InCode, j - (i + 1)) + regions.value) == Repeat(InCode, j - i) + regions.value;
    }
  }

  lemma Nothing(clean: string, i: nat, rest: Result<string>, regions: Result<seq<Region>>)
    requires i <= |clean|
    ensures Then(clean[i..i], rest) == rest && ThenRegions(Repeat(InCode, 0), regions) == regions
  {
    if rest.Ok? { assert clean[i..i] + rest.value == rest.value; }
    if regions.Ok? { assert Repeat(InCode, 0) + regions.value == regions.value; }
  }

  /** Where the next piece of the text begins, its cleaned form has the same two characters
      that could open a comment, or none. */
  lemma CodeStaysCode(text: string, clean: string, i: nat)
    requires i < |text| && CleanFrom(text, clean, i) && PieceAt(text, i).Code?
    ensures PieceAt(clean, i) == Code(i + 1)
  {
    SplitClean(text, clean, i);
    assert clean[i] == clean[i..i + 1][0] && text[i] == text[i..i + 1][0];
    if i + 1 < |text| {
      SplitClean(text, clean, i + 1);
      var p := PieceAt(text, i + 1);
      assert clean[i + 1] == clean[i + 1..p.end][0];
    }
  }

  lemma LiteralStays(text: string, clean: string, i: nat, j: nat)
    requires i < |text| == |clean| && PieceAt(text, i) == Literal(j) && clean[i..j] == text[i..j]
    ensures PieceAt(clean, i) == Literal(j)
  {
    assert clean[i] == clean[i..j][0] && text[i] == text[i..j][0];
    assert text[i + 1..j] == text[i..j][1..] && clean[i + 1..j] == clean[i..j][1..];
    PastStringAgrees(text, clean, i + 1);
  }

  lemma BlankedStays(text: string, clean: string, i: nat, j: nat)
    requires i < j <= |text| == |clean| && clean[i..j] == Blanked(text[i..j])
    ensures forall k | i <= k < j :: clean[k] == ' ' || clean[k] == NEWLINE
  {
    assert forall k | i <= k < j :: clean[k] == clean[i..j][k - i];
  }

  /** Where strings are after cleaning: exactly where they were before. */
  function WithoutComments(regions: seq<Region>): (r: seq<Region>)
    ensures |r| == |regions|
  {
    seq(|regions|, k requires 0 <= k < |regions| => if regions[k] == InComment then InCode else regions[k])
  }

  function WithoutCommentsIn(regions: Result<seq<Region>>): Result<seq<Region>> {
    match regions case Refused => Refused case Ok(r) => Ok(WithoutComments(r))
  }

  /** What cleaning does to one piece, given what it does to the rest. */
  lemma PieceIsClean(text: string, clean: string, i: nat, j: nat, rest: seq<Region>)
    requires i < j <= |text| == |clean| && !PieceAt(text, i).Unterminated? && PieceAt(text, i).end == j && CleanFrom(text, clean, i)
    requires Uncommented(clean, j) == Ok(clean[j..]) && Regions(clean, j) == Ok(WithoutComments(rest))
    ensures Uncommented(clean, i) == Then(clean[i..j], Ok(clean[j..]))
    ensures var r := if PieceAt(text, i).Literal? then InLiteral else InCode;
            Regions(clean, i) == Ok(Repeat(r, j - i) + WithoutComments(rest))
  {
    SplitClean(text, clean, i);
    match PieceAt(text, i)
    case Comment(_) =>
      BlankedStays(text, clean, i, j);
      BlankIsCode(clean, i, j);
    case Literal(_) => LiteralStays(text, clean, i, j);
    case Code(_) => CodeStaysCode(text, clean, i);
  }

  /** Cleaning leaves no comment outside strings, leaves every string literal where it was,
      and has nothing more to do a second time. */
  lemma {:induction false} CleanIsClean(text: string, clean: string, i: nat)
    requires i <= |text| && CleanFrom(text, clean, i)
    ensures Uncommented(clean, i) == Ok(clean[i..])
    ensures Regions(text, i).Ok? && Regions(clean, i) == WithoutCommentsIn(Regions(text, i))
    decreases |text| - i
  {
    if i < |text| {
      SplitClean(text, clean, i);
      var j := PieceAt(text, i).end;
      CleanIsClean(text, clean, j);
      var rest := Regions(text, j).value;
      PieceIsClean(text, clean, i, j, rest);
      FirstRegion(text, i, j, rest);
      SliceJoin(clean, i, j);
    }
  }

  lemma FirstRegion(text: string, i: nat, j: nat, rest: seq<Region>)
    requires i < j <= |text| && !PieceAt(text, i).Unterminated? && PieceAt(text, i).end == j && Regions(text, j) == Ok(rest)
    ensures Regions(text, i).Ok?
    ensures WithoutComments(Regions(text, i).value)
            == Repeat(if PieceAt(text, i).Literal? then InLiteral else InCode, j - i) + WithoutComments(rest)
  {
    var p := PieceAt(text, i);
    JoinRegions(if p.Comment? then InComment else if p.Literal? then InLiteral else InCode, j - i, rest);
  }

  lemma SliceJoin(s: string, i: nat, j: nat)
    requires i <= j <= |s|
    ensures s[i..j] + s[j..] == s[i..]
  {
  }

  lemma JoinRegions(r: Region, n: nat, rest: seq<Region>)
    ensures WithoutComments(Repeat(r, n) + rest) == Repeat(if r == InComment then InCode else r, n) + WithoutComments(rest)
  {
  }

  // ------------------------------------------------------------------ comma pass

  /** The region of each character from `i` on when only strings are skipped. */
  function Strings(text: string, i: nat): (r: seq<bool>)
    requires i <= |text|
    ensures |r| == |text| - i
    decreases |text| - i
  {
    if i == |text| then []
    else if text[i] == '"' then
      Repeat(true, PastString(text, i + 1) - i) + Strings(text, PastString(text, i + 1))
    else [false] + Strings(text, i + 1)
  }

  function AfterComma(text: string, k: nat, inString: bool): char
    requires k < |text|
  {
    if !inString && Trailing(text, k) then ' ' else text[k]
  }

  /** `s` is the text from `i` on, as `strings` have it after trailing commas are blanked. */
  ghost predicate CommasDone(text: string, i: nat, s: string, strings: seq<bool>) {
    |s| == |strings| && i + |s| <= |text| && forall k | 0 <= k < |s| :: s[k] == AfterComma(text, i + k, strings[k])
  }

  lemma CommasDoneTogether(text: string, i: nat, s: string, r: seq<bool>, tail: string, rest: seq<bool>)
    requires CommasDone(text, i, s, r) && CommasDone(text, i + |s|, tail, rest)
    ensures CommasDone(text, i, s + tail, r + rest)
  {
    forall k | 0 <= k < |s + tail| ensures (s + tail)[k] == AfterComma(text, i + k, (r + rest)[k]) {
      if k >= |s| { assert (s + tail)[k] == tail[k - |s|] && i + k == i + |s| + (k - |s|); }
    }
  }

  /** Character by character: exactly the commas outside strings whose next solid character
      closes a bracket become spaces. */
  lemma {:induction false} DecommaedExactly(text: string, i: nat)
    requires i <= |text|
    ensures CommasDone(text, i, Decommaed(text, i), Strings(text, i))
    decreases |text| - i
  {
    if i < |text| {
      var j := if text[i] == '"' then PastString(text, i + 1) else i + 1;
      DecommaedExactly(text, j);
      var head := if text[i] == '"' then text[i..j] else [AfterComma(text, i, false)];
      CommasDoneTogether(text, i, head, if text[i] == '"' then Repeat(true, j - i) else [false], Decommaed(text, j), Strings(text, j));
    }
  }

  // ---------------------------------------------------------------- main results

  /** What the whole cleaner keeps: the length, the position of every newline, and every
      character of every string literal. */
  lemma CleanedKeeps(text: string)
    requires Cleaned(text).Ok?
    ensures Regions(text, 0).Ok? && |Regions(text, 0).value| == |text| == |Cleaned(text).value|
    ensures forall k | 0 <= k < |text| :: Cleaned(text).value[k] == NEWLINE <==> text[k] == NEWLINE
    ensures forall k | 0 <= k < |text| :: Regions(text, 0).value[k] == InLiteral ==> Cleaned(text).value[k] == text[k]
  {
    var u := Uncommented(text, 0).value;
    UncommentedExactly(text, 0);
    assert u[0..] == u;
    CleanIsClean(text, u, 0);
    DecommaedExactly(u, 0);
    assert NoComment(Regions(u, 0).value);
    StringsAreLiterals(u, 0);
    var c, r := Cleaned(text).value, Regions(text, 0).value;
    forall k | 0 <= k < |text|
      ensures (c[k] == NEWLINE <==> text[k] == NEWLINE) && (r[k] == InLiteral ==> c[k] == text[k])
    {
      assert u[k] == AfterComments(text[0 + k], r[k]);
      assert c[k] == AfterComma(u, 0 + k, Strings(u, 0)[k]);
    }
  }

  predicate NoComment(r: seq<Region>) {
    forall k | 0 <= k < |r| :: r[k] != InComment
  }

  predicate LiteralsAre(strings: seq<bool>, r: seq<Region>) {
    |strings| == |r| && forall k | 0 <= k < |r| :: strings[k] <==> r[k] == InLiteral
  }

  lemma LiteralsTogether(a: seq<bool>, r: seq<Region>, b: seq<bool>, rest: seq<Region>)
    requires LiteralsAre(a, r) && LiteralsAre(b, rest)
    ensures LiteralsAre(a + b, r + rest)
  {
  }

  lemma TailHasNoComment(head: seq<Region>, rest: seq<Region>)
    requires NoComment(head + rest)
    ensures NoComment(head) && NoComment(rest)
  {
    assert forall k | 0 <= k < |head| :: head[k] == (head + rest)[k];
    assert forall k | 0 <= k < |rest| :: rest[k] == (head + rest)[|head| + k];
  }

  /** In a text without comments, the strings the comma pass skips are the literals. */
  lemma {:induction false} StringsAreLiterals(text: string, i: nat)
    requires i <= |text| && Regions(text, i).Ok? && NoComment(Regions(text, i).value)
    ensures LiteralsAre(Strings(text, i), Regions(text, i).value)
    decreases |text| - i
  {
    if i < |text| {
      var r, rest := FirstPiece(text, i);
      var j := PieceAt(text, i).end;
      StringsAreLiterals(text, j);
      LiteralsTogether(if r == InLiteral then Repeat(true, j - i) else [false], Repeat(r, j - i), Strings(text, j), rest);
    }
  }

  /** The first piece of a text without comments, and the regions after it. */
  lemma FirstPiece(text: string, i: nat) returns (r: Region, rest: seq<Region>)
    requires i < |text| && Regions(text, i).Ok? && NoComment(Regions(text, i).value)
    ensures !PieceAt(text, i).Unterminated? && r == (if PieceAt(text, i).Literal? then InLiteral else InCode)
    ensures var j := PieceAt(text, i).end;
            && Regions(text, j) == Ok(rest) && NoComment(rest) && Regions(text, i).value == Repeat(r, j - i) + rest
            && (r == InLiteral <==> text[i] == '"')
            && j == (if r == InLiteral then PastString(text, i + 1) else i + 1)
  {
    var p := PieceAt(text, i);
    r := if p.Comment? then InComment else if p.Literal? then InLiteral else InCode;
    rest := Regions(text, p.end).value;
    TailHasNoComment(Repeat(r, p.end - i), rest);
    assert Repeat(r, p.end - i)[0] != InComment;
  }

  /** A text with no comment and no trailing comma outside strings is left as it is. */
  lemma CleanTextUnchanged(text: string)
    requires Regions(text, 0).Ok? && NoComment(Regions(text, 0).value)
    requires forall k | 0 <= k < |text| :: Trailing(text, k) ==> Strings(text, 0)[k]
    ensures Cleaned(text) == Ok(text)
  {
    UncommentedExactly(text, 0);
    var u := Uncommented(text, 0).value;
    var r := Regions(text, 0).value;
    forall k | 0 <= k < |text| ensures u[k] == text[k] {
      assert r[k] != InComment && u[k] == AfterComments(text[0 + k], r[k]);
    }
    assert u == text;
    DecommaedExactly(text, 0);
    forall k | 0 <= k < |text| ensures Decommaed(text, 0)[k] == text[k] {
      assert Decommaed(text, 0)[k] == AfterComma(text, 0 + k, Strings(text, 0)[k]);
    }
    assert Decommaed(text, 0) == text;
  }

  /** The comment pass is idempotent. */
  lemma CommentPassIdempotent(text: string)
    requires Uncommented(text, 0).Ok?
    ensures Uncommented(Uncommented(text, 0).value, 0) == Uncommented(text, 0)
    ensures Regions(Uncommented(text, 0).value, 0).Ok? && NoComment(Regions(Uncommented(text, 0).value, 0).value)
  {
    UncommentedExactly(text, 0);
    var u := Uncommented(text, 0).value;
    assert u[0..] == u;
    CleanIsClean(text, u, 0);
  }

  /** A comma outside strings whose next solid character is a trailing comma. */
  predicate BeforeTrailing(text: string, k: nat)
    requires k < |text|
  {
    text[k] == ',' && !Strings(text, 0)[k] && var j := Solid(text, k + 1); j < |text| && Trailing(text, j)
  }

  lemma SolidIs(s: string, i: nat, j: nat)
    requires i <= j <= |s| && (forall k | i <= k < j :: IsSpace(s[k])) && (j < |s| ==> !IsSpace(s[j]))
    ensures Solid(s, i) == j
  {
  }

  /** The comma pass leaves every string where it was. */
  lemma {:induction false} StringsStay(text: string, once: string, i: nat)
    requires i <= |text| == |once| && once[i..] == Decommaed(text, i)
    ensures Strings(once, i) == Strings(text, i)
    decreases |text| - i
  {
    if i < |text| {
      var j := if text[i] == '"' then PastString(text, i + 1) else i + 1;
      var head := if text[i] == '"' then text[i..j] else [AfterComma(text, i, false)];
      assert once[i..] == head + Decommaed(text, j);
      Halves(once, i, j, head, Decommaed(text, j));
      assert once[i] == head[0];
      StringsStay(text, once, j);
      if text[i] == '"' {
        assert once[i + 1..j] == once[i..j][1..] && text[i + 1..j] == text[i..j][1..];
        PastStringAgrees(text, once, i + 1);
      }
    }
  }

  lemma Halves(s: string, i: nat, j: nat, head: string, tail: string)
    requires i <= j <= |s| && s[i..] == head + tail && |head| == j - i
    ensures s[i..j] == head && s[j..] == tail
  {
    assert s[i..j] == s[i..][..j - i] && s[j..] == s[i..][j - i..];
  }

  /** After a character outside strings comes another, unless a string begins. */
  lemma {:induction false} StaysOutside(text: string, i: nat, m: nat)
    requires i <= m && m + 1 < |text| && !Strings(text, i)[m - i] && text[m + 1] != '"'
    ensures !Strings(text, i)[m + 1 - i]
    decreases |text| - i
  {
    var j := if text[i] == '"' then PastString(text, i + 1) else i + 1;
    if j <= m {
      StaysOutside(text, j, m);
    } else {
      assert j == m + 1;
    }
  }

  lemma {:induction false} OutsideUpTo(text: string, k: nat, j: nat)
    requires k < j < |text| && !Strings(text, 0)[k] && text[j] != '"' && forall m | k < m < j :: IsSpace(text[m])
    ensures !Strings(text, 0)[j]
    decreases j
  {
    if j > k + 1 { OutsideUpTo(text, k, j - 1); }
    StaysOutside(text, 0, j - 1);
  }

  /** What the comma pass makes of each character. */
  lemma OnceAt(text: string, m: nat)
    requires m < |text|
    ensures Decommaed(text, 0)[m] == AfterComma(text, m, Strings(text, 0)[m])
  {
    DecommaedExactly(text, 0);
    assert Decommaed(text, 0)[m] == AfterComma(text, 0 + m, Strings(text, 0)[m]);
  }

  lemma OthersStay(text: string, once: string)
    requires once == Decommaed(text, 0)
    ensures |once| == |text| && forall m | 0 <= m < |text| && text[m] != ',' :: once[m] == text[m]
  {
    forall m | 0 <= m < |text| ensures text[m] != ',' ==> once[m] == text[m] { OnceAt(text, m); }
  }

  /** The next solid character after a comma outside strings, once trailing commas are blanked:
      the same, unless that was a trailing comma; then the bracket it stood before. */
  lemma SolidOnce(text: string, k: nat)
    requires k < |text| && text[k] == ',' && !Strings(text, 0)[k]
    ensures var j := Solid(text, k + 1);
            Solid(Decommaed(text, 0), k + 1) == if j < |text| && Trailing(text, j) then Solid(text, j + 1) else j
  {
    var j := Solid(text, k + 1);
    if j < |text| && text[j] == ',' { OutsideUpTo(text, k, j); }
    if j < |text| && Trailing(text, j) { PastTrailing(text, k + 1, j); } else { UpToSolid(text, k + 1, j); }
  }

  lemma PastTrailing(text: string, i: nat, j: nat)
    requires i <= j < |text| && j == Solid(text, i) && Trailing(text, j) && !Strings(text, 0)[j]
    ensures Solid(Decommaed(text, 0), i) == Solid(text, j + 1)
  {
    var once := Decommaed(text, 0);
    var next := Solid(text, j + 1);
    SpacesStay(text, once, i, j);
    SpacesStay(text, once, j + 1, next);
    OnceAt(text, j);
    OnceAt(text, next);
    SolidIs(once, i, next);
  }

  lemma UpToSolid(text: string, i: nat, j: nat)
    requires i <= j <= |text| && j == Solid(text, i) && (j < |text| ==> !Trailing(text, j))
    ensures Solid(Decommaed(text, 0), i) == j
  {
    var once := Decommaed(text, 0);
    SpacesStay(text, once, i, j);
    if j < |text| { OnceAt(text, j); }
    SolidIs(once, i, j);
  }

  lemma SpacesStay(text: string, once: string, i: nat, j: nat)
    requires once == Decommaed(text, 0) && i <= j <= |text| && forall m | i <= m < j :: IsSpace(text[m])
    ensures forall m | i <= m < j :: IsSpace(once[m])
  {
    OthersStay(text, once);
  }

  /** Where a second comma pass changes something more: exactly at the commas outside strings
      that stand before a trailing comma. */
  lemma CommaPassAgainIff(text: string, k: nat)
    requires k < |text|
    ensures var once := Decommaed(text, 0); Decommaed(once, 0)[k] != once[k] <==> BeforeTrailing(text, k)
  {
    var once := Decommaed(text, 0);
    assert once[0..] == once;
    StringsStay(text, once, 0);
    OnceAt(text, k);
    OnceAt(once, k);
    if text[k] == ',' && !Strings(text, 0)[k] { TrailingOnceIff(text, k); }
  }

  lemma TrailingOnceIff(text: string, k: nat)
    requires k < |text| && text[k] == ',' && !Strings(text, 0)[k]
    ensures var once := Decommaed(text, 0); once[k] == ',' && Trailing(once, k) <==> BeforeTrailing(text, k)
  {
    var once := Decommaed(text, 0);
    var j := Solid(text, k + 1);
    OnceAt(text, k);
    SolidOnce(text, k);
    OthersStay(text, once);
    if j < |text| { OnceAt(text, j); }
  }

  /** The comma pass is idempotent on exactly the texts in which no comma outside strings
      stands before a trailing comma. */
  lemma CommaPassIdempotentIff(text: string)
    ensures var once := Decommaed(text, 0);
            Decommaed(once, 0) == once <==> forall k | 0 <= k < |text| :: !BeforeTrailing(text, k)
  {
    forall k | 0 <= k < |text|
      ensures Decommaed(Decommaed(text, 0), 0)[k] != Decommaed(text, 0)[k] <==> BeforeTrailing(text, k)
    {
      CommaPassAgainIff(text, k);
    }
  }

  /** It is not on a list that ends with two commas. */
  lemma CommaPassNotIdempotent()
    ensures var once := Decommaed("[1,,]", 0); Decommaed(once, 0) != once
  {
    var text := "[1,,]";
    assert Solid(text, 3) == 3 && Solid(text, 4) == 4;
    assert Strings(text, 0)[2] == Strings(text, 1)[1] == Strings(text, 2)[0] == false;
    assert BeforeTrailing(text, 2);
    CommaPassIdempotentIff(text);
  }

  // ------------------------------------------------------------------ the loops

  method SkipString(text: string, start: nat) returns (j: nat)
    requires start <= |text|
    ensures j == PastString(text, start)
  {
    j := start;
    while j < |text|
      invariant start <= j <= |text| && PastString(text, start) == PastString(text, j)
      decreases |text| - j
    {
      if text[j] == '\\' {
        j := if j + 2 <= |text| then j + 2 else |text|;
      } else if text[j] == '"' {
        j := j + 1;
        return;
      } else {
        j := j + 1;
      }
    }
  }

  method NextSolid(text: string, start: nat) returns (j: nat)
    requires start <= |text|
    ensures j == Solid(text, start)
  {
    j := start;
    while j < |text| && IsSpace(text[j])
      invariant start <= j <= |text| && Solid(text, start) == Solid(text, j)
    {
      j := j + 1;
    }
  }

  /** Overwrite a comment in place. */
  method BlankComment(text: string, cleaned: array<char>, from: nat, end: nat)
    requires from <= end <= |text| == cleaned.Length && cleaned[from..] == text[from..]
    modifies cleaned
    ensures cleaned[..] == old(cleaned[..from]) + Blanked(text[from..end]) + text[end..]
  {
    for k := from to end
      invariant cleaned[..from] == old(cleaned[..from]) && cleaned[end..] == text[end..]
      invariant forall m | from <= m < k :: cleaned[m] == if text[m] == NEWLINE then NEWLINE else ' '
    {
      cleaned[k] := if text[k] == NEWLINE then NEWLINE else ' ';
    }
    ghost var all := cleaned[..];
    assert all[from..end] == Blanked(text[from..end]);
    ThreeSlices(all, from, end);
    assert all[..from] == cleaned[..from] && all[end..] == cleaned[end..];
  }

  lemma ThreeSlices(s: string, i: nat, j: nat)
    requires i <= j <= |s|
    ensures s == s[..i] + s[i..j] + s[j..]
  {
  }

  lemma TailsAgree(s: string, t: string, i: nat, j: nat)
    requires i <= j <= |s| == |t| && s[i..] == t[i..]
    ensures s[i..j] == t[i..j] && s[j..] == t[j..]
  {
    assert s[i..j] == s[i..][..j - i] && t[i..j] == t[i..][..j - i] && s[j..] == s[i..][j - i..] && t[j..] == t[i..][j - i..];
  }

  /** One step of the comment pass, put after what is done already. */
  lemma CommentStep(text: string, i: nat, done: string, head: string)
    requires i < |text| && !PieceAt(text, i).Unterminated?
    requires var p := PieceAt(text, i); head == if p.Comment? then Blanked(text[i..p.end]) else text[i..p.end]
    ensures Then(done, Uncommented(text, i)) == Then(done + head, Uncommented(text, PieceAt(text, i).end))
  {
    var rest := Uncommented(text, PieceAt(text, i).end);
    assert Uncommented(text, i) == Then(head, rest);
    if rest.Ok? { assert done + (head + rest.value) == (done + head) + rest.value; }
  }

  /** Pass over the string literal at `i`, blank the comment there, or pass one character. */
  method PassPiece(text: string, cleaned: array<char>, i: nat) returns (ok: bool, j: nat)
    requires i < |text| == cleaned.Length && cleaned[..][i..] == text[i..]
    modifies cleaned
    ensures ok <==> !PieceAt(text, i).Unterminated?
    ensures ok ==> j == PieceAt(text, i).end && cleaned[..][..i] == old(cleaned[..])[..i] && cleaned[..][j..] == text[j..]
    ensures ok ==> cleaned[..][i..j] == if PieceAt(text, i).Comment? then Blanked(text[i..j]) else text[i..j]
  {
    ghost var before := cleaned[..];
    ok, j := true, i + 1;
    var comment := false;
    if text[i] == '"' {
      j := SkipString(text, i + 1);
    } else if Pair(text, i, '/', '/') {
      j, comment := LineEnd(text, i), true;
    } else if Pair(text, i, '/', '*') {
      var end := PastBlock(text, i + 2);
      if end.None? { return false, i; }
      j, comment := end.value, true;
    }
    TailsAgree(before, text, i, j);
    if comment {
      assert cleaned[i..] == before[i..];
      BlankComment(text, cleaned, i, j);
      Pasted(cleaned[..], before[..i], Blanked(text[i..j]), text[j..]);
    } else {
      assert cleaned[..][i..j] == cleaned[..][i..][..j - i] == text[i..][..j - i];
    }
  }

  method BlankComments(text: string, cleaned: array<char>) returns (ok: bool)
    requires cleaned[..] == text
    modifies cleaned
    ensures Uncommented(text, 0) == if ok then Ok(cleaned[..]) else Refused
  {
    var index := 0;
    ghost var whole := Uncommented(text, 0);
    assert whole == Then("", whole) by { if whole.Ok? { assert "" + whole.value == whole.value; } }
    while index < |text|
      invariant index <= |text| == cleaned.Length && cleaned[..][index..] == text[index..]
      invariant whole == Then(cleaned[..][..index], Uncommented(text, index))
    {
      ghost var done := cleaned[..][..index];
      var piece, j := PassPiece(text, cleaned, index);
      if !piece { return false; }
      CommentStep(text, index, done, cleaned[..][index..j]);
      Extended(cleaned[..], done, index, j);
      index := j;
    }
    assert cleaned[..][..index] == cleaned[..];
    assert cleaned[..] + "" == cleaned[..];
    return true;
  }

  lemma Pasted(all: string, a: string, b: string, c: string)
    requires all == a + b + c
    ensures all[..|a|] == a && all[|a|..|a| + |b|] == b && all[|a| + |b|..] == c
  {
  }

  /** One step of the comma pass, put after what is done already. */
  lemma CommaStep(text: string, i: nat, j: nat, done: string, head: string)
    requires i < |text| && j == (if text[i] == '"' then PastString(text, i + 1) else i + 1)
    requires head == if text[i] == '"' then text[i..j] else [AfterComma(text, i, false)]
    ensures done + Decommaed(text, i) == (done + head) + Decommaed(text, j)
  {
    assert Decommaed(text, i) == head + Decommaed(text, j);
  }

  /** Deal with the comma at `i`, if there is one. */
  method BlankComma(text: string, cleaned: array<char>, i: nat)
    requires i < |text| == cleaned.Length && cleaned[i] == text[i]
    modifies cleaned
    ensures cleaned[i] == AfterComma(text, i, false)
    ensures forall k | 0 <= k < |text| && k != i :: cleaned[k] == old(cleaned[k])
  {
    if text[i] == ',' {
      var next := NextSolid(text, i + 1);
      if next < |text| && (text[next] == ']' || text[next] == '}') { cleaned[i] := ' '; }
    }
  }

  /** Pass over the string literal at `i`, or deal with the one character there. */
  method PassOne(text: string, cleaned: array<char>, i: nat) returns (j: nat)
    requires i < |text| == cleaned.Length && cleaned[..][i..] == text[i..]
    modifies cleaned
    ensures j == (if text[i] == '"' then PastString(text, i + 1) else i + 1) && i < j <= |text|
    ensures cleaned[..][..i] == old(cleaned[..])[..i] && cleaned[..][j..] == text[j..]
    ensures cleaned[..][i..j] == if text[i] == '"' then text[i..j] else [AfterComma(text, i, false)]
  {
    ghost var before := cleaned[..];
    j := i + 1;
    if text[i] == '"' {
      j := SkipString(text, i + 1);
      assert cleaned[..][i..j] == cleaned[..][i..][..j - i] == text[i..][..j - i];
    } else {
      assert cleaned[i] == cleaned[..][i..][0];
      BlankComma(text, cleaned, i);
      assert cleaned[..][..i] == before[..i] && cleaned[..][j..] == before[j..];
    }
    TailsAgree(before, text, i, j);
  }

  lemma Extended(now: string, done: string, i: nat, j: nat)
    requires i <= j <= |now| && now[..i] == done
    ensures now[..j] == done + now[i..j]
  {
  }

  method BlankCommas(text: string, cleaned: array<char>)
    requires cleaned[..] == text
    modifies cleaned
    ensures cleaned[..] == Decommaed(text, 0)
  {
    var index := 0;
    ghost var whole := Decommaed(text, 0);
    while index < |text|
      invariant index <= |text| == cleaned.Length && cleaned[..][index..] == text[index..]
      invariant whole == cleaned[..][..index] + Decommaed(text, index)
    {
      ghost var done := cleaned[..][..index];
      var j := PassOne(text, cleaned, index);
      CommaStep(text, index, j, done, cleaned[..][index..j]);
      Extended(cleaned[..], done, index, j);
      index := j;
    }
    assert cleaned[..][..index] == cleaned[..];
  }

  /** The cleaner: blank the comments, then, in what is left, the trailing commas. */
  method Clean(text: string) returns (r: Result<string>)
    ensures r == Cleaned(text)
  {
    var cleaned := new char[|text|](k requires 0 <= k < |text| => text[k]);
    assert cleaned[..] == text;
    var ok := BlankComments(text, cleaned);
    if !ok { return Refused; }
    BlankCommas(cleaned[..], cleaned);
    return Ok(cleaned[..]);
  }
}
