/** Canonical JSON text (sections 4 to 7 of RFC 8259) with tight separators and sorted keys,
    as Python writes it without ASCII escaping; no two values share a text. */
module Json {

  datatype Json =
    | Null
    | Bool(b: bool)
    | Int(n: int)
    | Str(s: string)
    | Arr(items: Items)
    | Obj(fields: Fields)

  datatype Items = NoItems | Item(head: Json, tail: Items)
  datatype Fields = NoFields | Field(name: string, value: Json, rest: Fields)

  // ------------------------------------------------------------------- numbers

  function DigitChar(d: int): char
    requires 0 <= d < 10
  {
    ('0' as int + d) as char
  }

  predicate IsDigit(c: char) {
    '0' <= c <= '9'
  }

  function Digits(n: nat): (s: string)
    ensures s != "" && forall c | c in s :: IsDigit(c)
  {
    if n < 10 then [DigitChar(n)] else Digits(n / 10) + [DigitChar(n % 10)]
  }

  function Value(s: string): int
    decreases |s|
  {
    if s == "" then 0 else Value(s[..|s| - 1]) * 10 + (s[|s| - 1] as int - '0' as int)
  }

  lemma {:induction false} ValueOfDigits(n: nat)
    ensures Value(Digits(n)) == n
  {
    if n >= 10 {
      ValueOfDigits(n / 10);
      assert Digits(n)[..|Digits(n)| - 1] == Digits(n / 10);
    }
  }

  function Number(n: int): string {
    if n >= 0 then Digits(n) else "-" + Digits(-n)
  }

  /** What may follow a value: nothing, or the next separator or closing bracket. */
  predicate Ends(x: string) {
    x == "" || x[0] in {',', ']', '}'}
  }

  lemma DigitsLead(p: string, x: string, q: string, y: string, all: string)
    requires all == p + x && all == q + y && Ends(x) && forall c | c in q :: IsDigit(c)
    ensures |p| >= |q|
  {
    assert forall k | 0 <= k < |q| :: IsDigit(all[k]) by {
      forall k | 0 <= k < |q| ensures IsDigit(all[k]) { assert all[k] == q[k] && q[k] in q; }
    }
    assert |p| < |all| ==> all[|p|] == x[0] && !IsDigit(all[|p|]);
  }

  /** Two digit strings followed by no digit, with the same text in all, are the same. */
  lemma SameDigits(p: string, x: string, q: string, y: string)
    requires (forall c | c in p :: IsDigit(c)) && (forall c | c in q :: IsDigit(c))
    requires Ends(x) && Ends(y) && p + x == q + y
    ensures p == q && x == y
  {
    DigitsLead(p, x, q, y, p + x);
    DigitsLead(q, y, p, x, p + x);
    assert p == (p + x)[..|p|] && x == (p + x)[|p|..] && y == (q + y)[|q|..];
  }

  lemma NumbersDiffer(m: int, x: string, n: int, y: string)
    requires Ends(x) && Ends(y) && Number(m) + x == Number(n) + y
    ensures m == n && x == y
  {
    var p, q := Number(m), Number(n);
    var dm, dn := Digits(if m >= 0 then m else -m), Digits(if n >= 0 then n else -n);
    assert dm[0] in dm && dn[0] in dn;
    assert (p + x)[0] == p[0] && (q + y)[0] == q[0];
    assert (m >= 0) == (n >= 0);
    if m < 0 {
      assert (p + x)[1..] == dm + x && (q + y)[1..] == dn + y;
    }
    SameDigits(dm, x, dn, y);
    ValueOfDigits(if m >= 0 then m else -m);
    ValueOfDigits(if n >= 0 then n else -n);
  }

  // ------------------------------------------------------------------- strings

  function Hex(d: int): char
    requires 0 <= d < 16
  {
    if d < 10 then ('0' as int + d) as char else ('a' as int + (d - 10)) as char
  }

  /** How one character is written between quotes. */
  function Escaped(c: char): string {
    if c == '"' then "\\\""
    else if c == '\\' then "\\\\"
    else if c == '\n' then "\\n"
    else if c == '\r' then "\\r"
    else if c == '\t' then "\\t"
    else if c as int == 8 then "\\b"
    else if c as int == 12 then "\\f"
    else if c as int < 32 then "\\u00" + [Hex(c as int / 16), Hex(c as int % 16)]
    else [c]
  }

  function Body(s: string): string {
    if s == "" then "\"" else Escaped(s[0]) + Body(s[1..])
  }

  /** The escapes are a prefix code that never starts with a quote. */
  lemma EscapesDiffer(c: char, x: string, d: char, y: string)
    requires Escaped(c) + x == Escaped(d) + y
    ensures c == d && x == y
  {
    var p, q := Escaped(c), Escaped(d);
    assert p[0] == (p + x)[0] == (q + y)[0] == q[0];
    if p[0] == '\\' {
      assert p[1] == (p + x)[1] == (q + y)[1] == q[1];
      if p[1] == 'u' {
        assert p[4] == (p + x)[4] == (q + y)[4] == q[4];
        assert p[5] == (p + x)[5] == (q + y)[5] == q[5];
        assert c as int == c as int / 16 * 16 + c as int % 16;
        assert d as int == d as int / 16 * 16 + d as int % 16;
      }
    }
    assert c == d;
    assert x == (p + x)[|p|..] && y == (q + y)[|q|..];
  }

  lemma BodyFirst(s: string)
    ensures Body(s) != "" && (Body(s)[0] == '"' <==> s == "")
  {
  }

  lemma Regroup(a: string, b: string, c: string)
    ensures (a + b) + c == a + (b + c)
  {
  }

  lemma Cut(p: string, x: string, q: string, y: string)
    requires p + x == q + y && |p| == |q|
    ensures p == q && x == y
  {
    assert p == (p + x)[..|p|] && q == (q + y)[..|q|] && x == (p + x)[|p|..] && y == (q + y)[|q|..];
  }

  lemma {:induction false} BodiesDiffer(s: string, x: string, t: string, y: string)
    requires Body(s) + x == Body(t) + y
    ensures s == t && x == y
    decreases |s|
  {
    BodyFirst(s);
    BodyFirst(t);
    assert Body(s)[0] == (Body(s) + x)[0] == (Body(t) + y)[0] == Body(t)[0];
    if s == "" || t == "" {
      Cut("\"", x, "\"", y);
    } else {
      Regroup(Escaped(s[0]), Body(s[1..]), x);
      Regroup(Escaped(t[0]), Body(t[1..]), y);
      EscapesDiffer(s[0], Body(s[1..]) + x, t[0], Body(t[1..]) + y);
      BodiesDiffer(s[1..], x, t[1..], y);
      assert s == [s[0]] + s[1..] && t == [t[0]] + t[1..];
    }
  }

  // -------------------------------------------------------------------- values

  function Write(j: Json): string
    decreases j
  {
    match j
    case Null => "null"
    case Bool(b) => if b then "true" else "false"
    case Int(n) => Number(n)
    case Str(s) => "\"" + Body(s)
    case Arr(items) => "[" + WriteItems(items, true)
    case Obj(fields) => "{" + WriteFields(fields, true)
  }

  /** The items from here on, with a separator unless they are the first. */
  function WriteItems(items: Items, first: bool): string
    decreases items
  {
    match items
    case NoItems => "]"
    case Item(head, tail) => (if first then "" else ",") + Write(head) + WriteItems(tail, false)
  }

  function WriteFields(fields: Fields, first: bool): string
    decreases fields
  {
    match fields
    case NoFields => "}"
    case Field(name, value, rest) =>
      (if first then "" else ",") + "\"" + Body(name) + ":" + Write(value) + WriteFields(rest, false)
  }

  /** The first character of a text tells what kind of value it is. */
  function Kind(j: Json): int {
    match j
    case Null => 0
    case Bool(b) => if b then 1 else 2
    case Int(_) => 3
    case Str(_) => 4
    case Arr(_) => 5
    case Obj(_) => 6
  }

  function KindOf(c: char): int {
    if c == 'n' then 0 else if c == 't' then 1 else if c == 'f' then 2
    else if c == '-' || IsDigit(c) then 3
    else if c == '"' then 4 else if c == '[' then 5 else if c == '{' then 6 else 7
  }

  lemma FirstTells(j: Json)
    ensures Write(j) != "" && KindOf(Write(j)[0]) == Kind(j)
  {
    match j
    case Int(n) =>
      var d := Digits(if n >= 0 then n else -n);
      assert d[0] in d;
    case _ =>
  }

  lemma ItemsEnd(items: Items)
    ensures Ends(WriteItems(items, false))
  {
  }

  lemma FieldsEnd(fields: Fields)
    ensures Ends(WriteFields(fields, false))
  {
  }

  /** Two texts with the same opening character. */
  lemma Opened(c: string, p: string, x: string, q: string, y: string)
    requires |c| == 1 && (c + p) + x == (c + q) + y
    ensures p + x == q + y
  {
    Regroup(c, p, x);
    Regroup(c, q, y);
    Cut(c, p + x, c, q + y);
  }

  /** Unique decodability: a written value, followed by nothing or by a separator, tells
      both the value and where it ends. */
  lemma {:induction false} WritesDiffer(a: Json, x: string, b: Json, y: string)
    requires Ends(x) && Ends(y) && Write(a) + x == Write(b) + y
    ensures a == b && x == y
    decreases a
  {
    SameKind(a, x, b, y);
    match a
    case Null => Cut("null", x, "null", y);
    case Bool(v) => Cut(Write(a), x, Write(b), y);
    case Int(n) => NumbersDiffer(n, x, b.n, y);
    case Str(s) =>
      Opened("\"", Body(s), x, Body(b.s), y);
      BodiesDiffer(s, x, b.s, y);
    case Arr(items) =>
      Opened("[", WriteItems(items, true), x, WriteItems(b.items, true), y);
      ItemsDiffer(items, x, b.items, y, true);
    case Obj(fields) =>
      Opened("{", WriteFields(fields, true), x, WriteFields(b.fields, true), y);
      FieldsDiffer(fields, x, b.fields, y, true);
  }

  lemma SameKind(a: Json, x: string, b: Json, y: string)
    requires Write(a) + x == Write(b) + y
    ensures Kind(a) == Kind(b)
  {
    FirstTells(a);
    FirstTells(b);
    assert Write(a)[0] == (Write(a) + x)[0] == (Write(b) + y)[0] == Write(b)[0];
  }

  function Comma(first: bool): string {
    if first then "" else ","
  }

  lemma ItemShape(items: Items, first: bool, x: string)
    requires items.Item?
    ensures WriteItems(items, first) + x == Comma(first) + (Write(items.head) + (WriteItems(items.tail, false) + x))
  {
    Regroup(Comma(first) + Write(items.head), WriteItems(items.tail, false), x);
    Regroup(Comma(first), Write(items.head), WriteItems(items.tail, false) + x);
  }

  /** The closing bracket tells the end of the items from a further one. */
  lemma ItemsEndAlike(a: Items, x: string, b: Items, y: string, first: bool)
    requires WriteItems(a, first) + x == WriteItems(b, first) + y
    ensures a.NoItems? == b.NoItems?
  {
    if a.Item? { FirstTells(a.head); }
    if b.Item? { FirstTells(b.head); }
    assert WriteItems(a, first)[0] == (WriteItems(a, first) + x)[0] == (WriteItems(b, first) + y)[0] == WriteItems(b, first)[0];
  }

  lemma {:induction false} ItemsDiffer(a: Items, x: string, b: Items, y: string, first: bool)
    requires WriteItems(a, first) + x == WriteItems(b, first) + y
    ensures a == b && x == y
    decreases a
  {
    ItemsEndAlike(a, x, b, y, first);
    if a.NoItems? {
      Cut("]", x, "]", y);
    } else {
      var restA, restB := WriteItems(a.tail, false) + x, WriteItems(b.tail, false) + y;
      ItemShape(a, first, x);
      ItemShape(b, first, y);
      Cut(Comma(first), Write(a.head) + restA, Comma(first), Write(b.head) + restB);
      ItemsEnd(a.tail);
      ItemsEnd(b.tail);
      WritesDiffer(a.head, restA, b.head, restB);
      ItemsDiffer(a.tail, x, b.tail, y, false);
    }
  }

  /** What follows the name of a field, up to the end of the text. */
  function AfterName(fields: Fields, x: string): string
    requires fields.Field?
  {
    ":" + (Write(fields.value) + (WriteFields(fields.rest, false) + x))
  }

  lemma FieldShape(fields: Fields, first: bool, x: string)
    requires fields.Field?
    ensures WriteFields(fields, first) + x == (Comma(first) + "\"") + (Body(fields.name) + AfterName(fields, x))
  {
    var lead, name, value, rest := Comma(first) + "\"", Body(fields.name), Write(fields.value), WriteFields(fields.rest, false);
    Regroup(lead + name + ":" + value, rest, x);
    Regroup(lead + name + ":", value, rest + x);
    Regroup(lead + name, ":", value + (rest + x));
    Regroup(lead, name, ":" + (value + (rest + x)));
  }

  lemma FieldsEndAlike(a: Fields, x: string, b: Fields, y: string, first: bool)
    requires WriteFields(a, first) + x == WriteFields(b, first) + y
    ensures a.NoFields? == b.NoFields?
  {
    assert WriteFields(a, first)[0] == (WriteFields(a, first) + x)[0] == (WriteFields(b, first) + y)[0] == WriteFields(b, first)[0];
  }

  lemma {:induction false} FieldsDiffer(a: Fields, x: string, b: Fields, y: string, first: bool)
    requires WriteFields(a, first) + x == WriteFields(b, first) + y
    ensures a == b && x == y
    decreases a
  {
    FieldsEndAlike(a, x, b, y, first);
    if a.NoFields? {
      Cut("}", x, "}", y);
    } else {
      FieldShape(a, first, x);
      FieldShape(b, first, y);
      var lead := Comma(first) + "\"";
      Cut(lead, Body(a.name) + AfterName(a, x), lead, Body(b.name) + AfterName(b, y));
      BodiesDiffer(a.name, AfterName(a, x), b.name, AfterName(b, y));
      var restA, restB := WriteFields(a.rest, false) + x, WriteFields(b.rest, false) + y;
      Cut(":", Write(a.value) + restA, ":", Write(b.value) + restB);
      FieldsEnd(a.rest);
      FieldsEnd(b.rest);
      WritesDiffer(a.value, restA, b.value, restB);
      FieldsDiffer(a.rest, x, b.rest, y, false);
    }
  }

  /** Two values with the same text are the same. */
  lemma WriteInjective(a: Json, b: Json)
    requires Write(a) == Write(b)
    ensures a == b
  {
    assert Write(a) + "" == Write(a) && Write(b) + "" == Write(b);
    WritesDiffer(a, "", b, "");
  }
}
