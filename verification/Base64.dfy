/** Unpadded base64url (sections 3.2, 3.5 and 5 of RFC 4648), encoder and strict decoder. */
module Base64 {
  import opened Outcome
  import opened Utf8

  /** Six bits. */
  type sextet = x: int | 0 <= x < 64 witness 0

  function CharOf(n: sextet): (c: char) {
    if n < 26 then ('A' as int + n) as char
    else if n < 52 then ('a' as int + (n - 26)) as char
    else if n < 62 then ('0' as int + (n - 52)) as char
    else if n == 62 then '-' else '_'
  }

  predicate InAlphabet(c: char) {
    'A' <= c <= 'Z' || 'a' <= c <= 'z' || '0' <= c <= '9' || c == '-' || c == '_'
  }

  function SextetOf(c: char): (n: sextet)
    requires InAlphabet(c)
    ensures CharOf(n) == c
  {
    if 'A' <= c <= 'Z' then c as int - 'A' as int
    else if 'a' <= c <= 'z' then c as int - 'a' as int + 26
    else if '0' <= c <= '9' then c as int - '0' as int + 52
    else if c == '-' then 62 else 63
  }

  lemma CharRound(n: sextet)
    ensures InAlphabet(CharOf(n)) && SextetOf(CharOf(n)) == n
  {
  }

  // ------------------------------------------------------ bytes and sextets

  function A(x: byte): sextet { x / 4 }
  function B(x: byte, y: byte): sextet { var low: int := y; x % 4 * 16 + low / 16 }
  function C(y: byte, z: byte): sextet { var low: int := z; y % 16 * 4 + low / 64 }
  function D(z: byte): sextet { z % 64 }

  function X(a: sextet, b: sextet): byte { var high: int := a; high * 4 + b / 16 }
  function Y(b: sextet, c: sextet): byte { var high: int := b; high % 16 * 16 + c / 4 }
  function Z(c: sextet, d: sextet): byte { var high: int := c; high % 4 * 64 + d }

  /** Three bytes through four sextets and back. */
  lemma Trio(x: byte, y: byte, z: byte)
    ensures X(A(x), B(x, y)) == x && Y(B(x, y), C(y, z)) == y && Z(C(y, z), D(z)) == z
  {
  }

  /** Four sextets through three bytes and back; a short last group gives back its sextets
      exactly when its spare bits are zero. */
  lemma Quad(a: sextet, b: sextet, c: sextet, d: sextet)
    ensures A(X(a, b)) == a && B(X(a, b), Y(b, c)) == b && C(Y(b, c), Z(c, d)) == c && D(Z(c, d)) == d
    ensures B(X(a, b), 0) == b <==> b % 16 == 0
    ensures C(Y(b, c), 0) == c <==> c % 4 == 0
  {
  }

  /** The seven bit operations, so that grouping can be reasoned about apart from arithmetic. */
  datatype Ops = Ops(a: byte -> sextet, b: (byte, byte) -> sextet, c: (byte, byte) -> sextet, d: byte -> sextet,
                     x: (sextet, sextet) -> byte, y: (sextet, sextet) -> byte, z: (sextet, sextet) -> byte, zero: byte)

  const OPS := Ops(A, B, C, D, X, Y, Z, 0)

  predicate TrioReturns(o: Ops, x: byte, y: byte, z: byte) {
    o.x(o.a(x), o.b(x, y)) == x && o.y(o.b(x, y), o.c(y, z)) == y && o.z(o.c(y, z), o.d(z)) == z
  }

  predicate QuadReturns(o: Ops, a: sextet, b: sextet, c: sextet, d: sextet) {
    o.a(o.x(a, b)) == a && o.b(o.x(a, b), o.y(b, c)) == b && o.c(o.y(b, c), o.z(c, d)) == c && o.d(o.z(c, d)) == d
  }

  ghost predicate Sound(o: Ops) {
    && (forall x: byte, y: byte, z: byte :: TrioReturns(o, x, y, z))
    && (forall a: sextet, b: sextet, c: sextet, d: sextet :: QuadReturns(o, a, b, c, d))
  }

  lemma OpsSound()
    ensures Sound(OPS)
  {
    forall x: byte, y: byte, z: byte ensures TrioReturns(OPS, x, y, z) { Trio(x, y, z); }
    forall a: sextet, b: sextet, c: sextet, d: sextet ensures QuadReturns(OPS, a, b, c, d) { Quad(a, b, c, d); }
  }

  /** Three bytes as four sextets; a short last group leaves spare zero bits. */
  function Sextets(o: Ops, raw: Bytes): seq<sextet>
    decreases |raw|
  {
    if |raw| == 0 then []
    else if |raw| == 1 then [o.a(raw[0]), o.b(raw[0], o.zero)]
    else if |raw| == 2 then [o.a(raw[0]), o.b(raw[0], raw[1]), o.c(raw[1], o.zero)]
    else [o.a(raw[0]), o.b(raw[0], raw[1]), o.c(raw[1], raw[2]), o.d(raw[2])] + Sextets(o, raw[3..])
  }

  /** A length that whole groups and one short group of two or three can make. */
  predicate Groups(n: nat) {
    n != 1 && (n >= 4 ==> Groups(n - 4))
  }

  lemma {:induction false} GroupsIff(n: nat)
    ensures Groups(n) <==> n % 4 != 1
  {
    if n >= 4 { GroupsIff(n - 4); }
  }

  /** The bytes of these sextets; spare bits of the last one are dropped. */
  function Octets(o: Ops, s: seq<sextet>): Bytes
    requires Groups(|s|)
    decreases |s|
  {
    if |s| == 0 then []
    else if |s| == 2 then [o.x(s[0], s[1])]
    else if |s| == 3 then [o.x(s[0], s[1]), o.y(s[1], s[2])]
    else [o.x(s[0], s[1]), o.y(s[1], s[2]), o.z(s[2], s[3])] + Octets(o, s[4..])
  }

  lemma Drop<T>(head: seq<T>, rest: seq<T>)
    ensures (head + rest)[|head|..] == rest
  {
  }

  lemma {:induction false} OctetsOfSextets(o: Ops, raw: Bytes)
    requires Sound(o)
    ensures Groups(|Sextets(o, raw)|) && Octets(o, Sextets(o, raw)) == raw
    decreases |raw|
  {
    if |raw| == 1 {
      assert TrioReturns(o, raw[0], o.zero, o.zero);
      assert raw == [raw[0]];
    } else if |raw| == 2 {
      assert TrioReturns(o, raw[0], raw[1], o.zero);
      assert raw == [raw[0], raw[1]];
    } else if |raw| >= 3 {
      OctetsOfSextets(o, raw[3..]);
      assert TrioReturns(o, raw[0], raw[1], raw[2]);
      Drop([o.a(raw[0]), o.b(raw[0], raw[1]), o.c(raw[1], raw[2]), o.d(raw[2])], Sextets(o, raw[3..]));
      assert raw == [raw[0], raw[1], raw[2]] + raw[3..];
    }
  }

  /** The last, short group gives back its last sextet: there were no spare bits to drop. */
  predicate NothingSpare(o: Ops, s: seq<sextet>)
    requires Groups(|s|)
    decreases |s|
  {
    if |s| == 0 then true
    else if |s| == 2 then o.b(o.x(s[0], s[1]), o.zero) == s[1]
    else if |s| == 3 then o.c(o.y(s[1], s[2]), o.zero) == s[2]
    else NothingSpare(o, s[4..])
  }

  lemma FullGroup(o: Ops, s: seq<sextet>)
    requires Sound(o) && Groups(|s|) && |s| >= 4
    ensures Sextets(o, Octets(o, s)) == s[..4] + Sextets(o, Octets(o, s[4..]))
  {
    assert QuadReturns(o, s[0], s[1], s[2], s[3]);
    var trio := [o.x(s[0], s[1]), o.y(s[1], s[2]), o.z(s[2], s[3])];
    Drop(trio, Octets(o, s[4..]));
    assert s[..4] == [s[0], s[1], s[2], s[3]];
  }

  lemma SamePrefix(head: seq<sextet>, xs: seq<sextet>, ys: seq<sextet>)
    ensures head + xs == head + ys <==> xs == ys
  {
    if head + xs == head + ys { Drop(head, xs); Drop(head, ys); }
  }

  lemma {:induction false} SextetsOfOctets(o: Ops, s: seq<sextet>)
    requires Sound(o) && Groups(|s|)
    ensures Sextets(o, Octets(o, s)) == s <==> NothingSpare(o, s)
    decreases |s|
  {
    if |s| >= 4 {
      SextetsOfOctets(o, s[4..]);
      FullGroup(o, s);
      SamePrefix(s[..4], Sextets(o, Octets(o, s[4..])), s[4..]);
      assert s == s[..4] + s[4..];
    } else if |s| == 2 {
      assert QuadReturns(o, s[0], s[1], s[1], s[1]);
      assert Sextets(o, Octets(o, s)) == [o.a(o.x(s[0], s[1])), o.b(o.x(s[0], s[1]), o.zero)];
    } else if |s| == 3 {
      assert QuadReturns(o, s[0], s[1], s[2], s[2]);
      assert Sextets(o, Octets(o, s))
          == [o.a(o.x(s[0], s[1])), o.b(o.x(s[0], s[1]), o.y(s[1], s[2])), o.c(o.y(s[1], s[2]), o.zero)];
    }
  }

  /** The spare bits of the last sextet, which a canonical text leaves zero. */
  predicate SpareBitsZero(s: seq<sextet>) {
    && (|s| % 4 == 2 ==> s[|s| - 1] % 16 == 0)
    && (|s| % 4 == 3 ==> s[|s| - 1] % 4 == 0)
  }

  lemma SpareOfTwo(a: sextet, b: sextet)
    ensures OPS.b(OPS.x(a, b), OPS.zero) == b <==> b % 16 == 0
  {
    Quad(a, b, 0, 0);
  }

  lemma SpareOfThree(b: sextet, c: sextet)
    ensures OPS.c(OPS.y(b, c), OPS.zero) == c <==> c % 4 == 0
  {
    Quad(0, b, c, 0);
  }

  lemma SpareOfRest(s: seq<sextet>)
    requires |s| >= 4 && |s| % 4 != 1
    ensures SpareBitsZero(s) == SpareBitsZero(s[4..])
  {
    if |s| > 4 { assert s[|s| - 1] == s[4..][|s| - 5]; }
  }

  lemma {:induction false} NothingSpareIff(s: seq<sextet>)
    requires Groups(|s|)
    ensures NothingSpare(OPS, s) <==> SpareBitsZero(s)
    decreases |s|
  {
    GroupsIff(|s|);
    if |s| >= 4 {
      NothingSpareIff(s[4..]);
      SpareOfRest(s);
    } else if |s| == 2 {
      SpareOfTwo(s[0], s[1]);
    } else if |s| == 3 {
      SpareOfThree(s[1], s[2]);
    }
  }

  // ------------------------------------------------------------------- text

  function Chars(s: seq<sextet>): string {
    seq(|s|, i requires 0 <= i < |s| => CharOf(s[i]))
  }

  predicate AllInAlphabet(text: string) {
    forall i | 0 <= i < |text| :: InAlphabet(text[i])
  }

  function SextetsIn(text: string): seq<sextet>
    requires AllInAlphabet(text)
  {
    seq(|text|, i requires 0 <= i < |text| => SextetOf(text[i]))
  }

  function Encode64(raw: Bytes): string {
    Chars(Sextets(OPS, raw))
  }

  /** The strict decoder: alphabet, length, and the text that its bytes encode to. */
  function Decode64(text: string): Result<Bytes> {
    var _ :- Check(text != "" && AllInAlphabet(text) && Groups(|text|));
    var raw := Octets(OPS, SextetsIn(text));
    if Encode64(raw) == text then Ok(raw) else Refused
  }

  lemma CharsRound(s: seq<sextet>)
    ensures AllInAlphabet(Chars(s)) && SextetsIn(Chars(s)) == s
  {
    forall i | 0 <= i < |s| ensures InAlphabet(Chars(s)[i]) && SextetOf(Chars(s)[i]) == s[i] { CharRound(s[i]); }
  }

  lemma TextRound(text: string)
    requires AllInAlphabet(text)
    ensures Chars(SextetsIn(text)) == text
  {
  }

  lemma CharsInjective(s: seq<sextet>, r: seq<sextet>)
    ensures Chars(s) == Chars(r) <==> s == r
  {
    CharsRound(s);
    CharsRound(r);
  }

  /** Encoding and strict decoding are inverse bijections between non-empty byte strings and
      accepted texts; accepted are exactly the non-empty texts over the alphabet whose length
      is not one more than a multiple of four and whose spare bits are zero. */
  lemma Base64Bijection(raw: Bytes, text: string)
    ensures raw != [] ==> Decode64(Encode64(raw)) == Ok(raw)
    ensures Decode64(text).Ok? ==> Encode64(Decode64(text).value) == text && Decode64(text).value != []
    ensures Decode64(text).Ok? <==>
            text != "" && AllInAlphabet(text) && |text| % 4 != 1 && SpareBitsZero(SextetsIn(text))
  {
    OpsSound();
    OctetsOfSextets(OPS, raw);
    CharsRound(Sextets(OPS, raw));
    GroupsIff(|text|);
    if AllInAlphabet(text) && Groups(|text|) {
      var s := SextetsIn(text);
      SextetsOfOctets(OPS, s);
      NothingSpareIff(s);
      TextRound(text);
      CharsInjective(Sextets(OPS, Octets(OPS, s)), s);
    }
  }

  lemma {:induction false} SextetCount(raw: Bytes)
    ensures 3 * |Sextets(OPS, raw)| <= 4 * |raw| + 2
    decreases |raw|
  {
    if |raw| >= 3 { SextetCount(raw[3..]); }
  }

  /** An encoding takes at most four characters for three bytes, rounded up. */
  lemma Length64(raw: Bytes)
    ensures 3 * |Encode64(raw)| <= 4 * |raw| + 2
    ensures AllInAlphabet(Encode64(raw))
  {
    SextetCount(raw);
    CharsRound(Sextets(OPS, raw));
  }
}
