/** Lines of text: white space as Python strips it, and splitting at newlines. */
module TextLines {

  /** The characters that `strip` removes. */
  predicate IsSpace(c: char) {
    var n := c as int;
    || 0x09 <= n <= 0x0D || 0x1C <= n <= 0x20 || n == 0x85 || n == 0xA0 || n == 0x1680
    || 0x2000 <= n <= 0x200A || n == 0x2028 || n == 0x2029 || n == 0x202F || n == 0x205F || n == 0x3000
  }

  predicate Blank(s: string) {
    forall c | c in s :: IsSpace(c)
  }

  function Strip(s: string): string
    decreases |s|
  {
    if s == [] then s
    else if IsSpace(s[0]) then Strip(s[1..])
    else if IsSpace(s[|s| - 1]) then Strip(s[..|s| - 1])
    else s
  }

  const NEWLINE := '\n'

  function FirstNewline(raw: string): (k: nat)
    requires NEWLINE in raw
    ensures k < |raw| && raw[k] == NEWLINE && NEWLINE !in raw[..k]
  {
    if raw[0] == NEWLINE then 0 else 1 + FirstNewline(raw[1..])
  }

  function Split(text: string): seq<string>
    decreases |text|
  {
    if NEWLINE !in text then [text]
    else [text[..FirstNewline(text)]] + Split(text[FirstNewline(text) + 1..])
  }

  function NonBlank(lines: seq<string>): seq<string> {
    if lines == [] then []
    else (if Blank(lines[0]) then [] else [lines[0]]) + NonBlank(lines[1..])
  }

  lemma FirstNewlineIs(raw: string, k: nat)
    requires k < |raw| && raw[k] == NEWLINE && NEWLINE !in raw[..k]
    ensures FirstNewline(raw) == k
  {
    var j := FirstNewline(raw);
    forall i | 0 <= i < k ensures raw[i] != NEWLINE { assert raw[..k][i] == raw[i]; }
    forall i | 0 <= i < j ensures raw[i] != NEWLINE { assert raw[..j][i] == raw[i]; }
  }

  function LinesIn(text: string): seq<string> {
    NonBlank(Split(text))
  }

  lemma FirstLine(text: string, k: nat)
    requires k < |text| && text[k] == NEWLINE && NEWLINE !in text[..k]
    ensures LinesIn(text) == (if Blank(text[..k]) then [] else [text[..k]]) + LinesIn(text[k + 1..])
  {
    FirstNewlineIs(text, k);
    assert Split(text)[0] == text[..k] && Split(text)[1..] == Split(text[k + 1..]);
  }

  lemma PrefixSlices(a: string, b: string, k: nat)
    requires k < |a|
    ensures (a + b)[..k] == a[..k] && (a + b)[k + 1..] == a[k + 1..] + b && (a + b)[k] == a[k]
  {
  }

  lemma Regrouped<T>(xs: seq<T>, ys: seq<T>, zs: seq<T>)
    ensures xs + (ys + zs) == (xs + ys) + zs
  {
  }

  predicate Whole(text: string) {
    text == "" || text[|text| - 1] == NEWLINE
  }

  lemma WholeAfter(text: string, k: nat)
    requires Whole(text) && k < |text|
    ensures Whole(text[k + 1..])
  {
  }

  /** Whole lines with lines appended to them: their lines, then the others. */
  lemma {:induction false} LinesAppended(a: string, b: string, all: string)
    requires Whole(a) && all == a + b
    ensures LinesIn(all) == LinesIn(a) + LinesIn(b)
    decreases |a|
  {
    if a == "" {
      assert all == b;
      assert Split("") == [""] && NonBlank([""]) == [];
    } else {
      assert a[|a| - 1] == NEWLINE;
      var k := FirstNewline(a);
      PrefixSlices(a, b, k);
      FirstLine(all, k);
      FirstLine(a, k);
      WholeAfter(a, k);
      LinesAppended(a[k + 1..], b, all[k + 1..]);
      Regrouped(if Blank(a[..k]) then [] else [a[..k]], LinesIn(a[k + 1..]), LinesIn(b));
    }
  }
}
