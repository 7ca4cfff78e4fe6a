/** UTF-8 (section 3 of RFC 3629), as Python's strict codec reads and writes it. */
module Utf8 {
  import opened Outcome

  type byte = x: int | 0 <= x < 256 witness 0
  type Bytes = seq<byte>

  function EncodeChar(c: char): Bytes {
    var n := c as int;
    var d := n / 64;
    var e := d / 64;
    if n < 0x80 then [n]
    else if n < 0x800 then [0xC0 + d, 0x80 + n % 64]
    else if n < 0x10000 then [0xE0 + e, 0x80 + d % 64, 0x80 + n % 64]
    else [0xF0 + e / 64, 0x80 + e % 64, 0x80 + d % 64, 0x80 + n % 64]
  }

  function Encode(text: string): Bytes {
    if text == "" then [] else EncodeChar(text[0]) + Encode(text[1..])
  }

  predicate Continues(b: byte) {
    0x80 <= b < 0xC0
  }

  /** A code point that is a Unicode scalar value. */
  predicate Scalar(n: int) {
    0 <= n < 0xD800 || 0xE000 <= n < 0x11_0000
  }

  /** The code point whose leading bits are `high` and whose next six bits `b` carries. */
  function Joined(high: int, b: int): int {
    high * 64 + (b - 0x80)
  }

  /** The first character and how many bytes it takes; shortest forms only. */
  function First(raw: Bytes): (r: Option<(char, nat)>)
    ensures r.Some? ==> 0 < r.value.1 <= |raw|
  {
    if |raw| >= 1 && raw[0] < 0x80 then Some((raw[0] as char, 1))
    else if |raw| >= 2 && 0xC2 <= raw[0] < 0xE0 && Continues(raw[1]) then
      Some((Joined(raw[0] - 0xC0, raw[1]) as char, 2))
    else if |raw| >= 3 && 0xE0 <= raw[0] < 0xF0 && Continues(raw[1]) && Continues(raw[2]) then
      var n := Joined(Joined(raw[0] - 0xE0, raw[1]), raw[2]);
      if n >= 0x800 && Scalar(n) then Some((n as char, 3)) else None
    else if |raw| >= 4 && 0xF0 <= raw[0] < 0xF5 && Continues(raw[1]) && Continues(raw[2]) && Continues(raw[3]) then
      var n := Joined(Joined(Joined(raw[0] - 0xF0, raw[1]), raw[2]), raw[3]);
      if n >= 0x10000 && Scalar(n) then Some((n as char, 4)) else None
    else None
  }

  function Decode(raw: Bytes): Option<string>
    decreases |raw|
  {
    if raw == [] then Some("")
    else match First(raw)
         case None => None
         case Some(r) =>
           match Decode(raw[r.1..])
           case None => None
           case Some(rest) => Some([r.0] + rest)
  }

  // ------------------------------------------------------------------ round trip

  lemma FirstOfEncoded(c: char, rest: Bytes)
    ensures First(EncodeChar(c) + rest) == Some((c, |EncodeChar(c)|))
  {
  }

  lemma {:induction false} DecodeEncode(text: string)
    ensures Decode(Encode(text)) == Some(text)
  {
    if text != "" {
      var tail := Encode(text[1..]);
      FirstOfEncoded(text[0], tail);
      assert Encode(text)[|EncodeChar(text[0])|..] == tail;
      assert text == [text[0]] + text[1..];
      DecodeEncode(text[1..]);
    }
  }

  /** Two texts with the same UTF-8 are the same. */
  lemma EncodeInjective(s: string, t: string)
    requires Encode(s) == Encode(t)
    ensures s == t
  {
    DecodeEncode(s);
    DecodeEncode(t);
  }

  // ------------------------------------------------------------------- appending

  lemma FirstStable(a: Bytes, b: Bytes)
    requires First(a).Some?
    ensures First(a + b) == First(a)
  {
  }

  lemma DropAppended(a: Bytes, b: Bytes, n: nat)
    requires n <= |a|
    ensures (a + b)[n..] == a[n..] + b
  {
  }

  lemma AppendedText(c: char, rest: string, more: string)
    ensures [c] + (rest + more) == ([c] + rest) + more
  {
  }

  /** One step of decoding, past the first character of `a`. */
  lemma DecodeStep(raw: Bytes, c: char, n: nat)
    requires raw != [] && First(raw) == Some((c, n))
    ensures Decode(raw) == match Decode(raw[n..]) case None => None case Some(rest) => Some([c] + rest)
  {
  }

  /** Bytes appended to valid UTF-8 decode to appended text, or make all of it undecodable. */
  lemma {:induction false} DecodeAppended(a: Bytes, b: Bytes, all: Bytes)
    requires Decode(a).Some? && all == a + b
    ensures Decode(all) == match Decode(b) case None => None case Some(t) => Some(Decode(a).value + t)
    decreases |a|
  {
    if a == [] {
      assert all == b;
      if Decode(b).Some? { assert "" + Decode(b).value == Decode(b).value; }
    } else {
      FirstStable(a, b);
      var c, n := First(a).value.0, First(a).value.1;
      DecodeStep(a, c, n);
      DecodeStep(all, c, n);
      DropAppended(a, b, n);
      DecodeAppended(a[n..], b, all[n..]);
      if Decode(b).Some? { AppendedText(c, Decode(a[n..]).value, Decode(b).value); }
    }
  }

  /** The beginning of a character and then a byte that does not continue it: no first
      character, whatever else follows. */
  lemma TornNoFirst(c: char, torn: Bytes, next: byte, more: Bytes)
    requires torn != [] && torn < EncodeChar(c) && !Continues(next)
    ensures First(torn + [next] + more).None?
  {
    var raw := torn + [next] + more;
    assert raw[0] == torn[0] == EncodeChar(c)[0] && raw[|torn|] == next;
    assert forall k | 0 <= k < |torn| :: raw[k] == EncodeChar(c)[k];
  }

  /** A character torn in the middle and followed by another one spoils the text for ever: no
      bytes appended to it make it decodable again. */
  lemma TornNeverDecodes(whole: Bytes, c: char, torn: Bytes, next: byte, more: Bytes)
    requires Decode(whole).Some? && torn != [] && torn < EncodeChar(c) && !Continues(next)
    ensures Decode(whole + (torn + [next] + more)).None?
  {
    TornNoFirst(c, torn, next, more);
    DecodeAppended(whole, torn + [next] + more, whole + (torn + [next] + more));
  }

  /** A newline is one byte, and no other character ends in that byte. */
  lemma {:induction false} NewlineLast(raw: Bytes)
    requires raw != [] && Decode(raw).Some?
    ensures Decode(raw).value != ""
    ensures raw[|raw| - 1] == 10 <==> Decode(raw).value[|Decode(raw).value| - 1] == '\n'
    decreases |raw|
  {
    var n := First(raw).value.1;
    if n < |raw| { NewlineLast(raw[n..]); }
  }
}
