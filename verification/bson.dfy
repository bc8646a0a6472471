/**
 * The values a stored document may hold, and Python's `str()` on them.
 *
 * A document store returns records whose values are of arbitrary Python
 * types; the only distinction the encoder makes is whether a value is a BSON
 * `ObjectId` (the store's reference type). An `ObjectId` is 12 bytes, held
 * here as a number below 2^96; its `str()` is its 24-digit lower-case
 * hexadecimal form. Every other value that is neither a string, a boolean nor
 * `None` is carried with the text that `str()` gives for it.
 */
module Bson {

  const ObjectIdBound: nat := 0x1_0000_0000_0000_0000_0000_0000

  /** The 96-bit content of an ObjectId. */
  type Oid = n: nat | n < ObjectIdBound

  datatype Value =
    | Str(s: string)
    | Bool(b: bool)
    | Null
    | ObjectId(oid: Oid)
    | Other(text: string)   // numbers, lists, dates, ...: only their str() is observable here

  /** A stored document: field name to value. Key order is not modelled. */
  type Doc = map<string, Value>

  /** Python's `str(v)`. */
  function ToStr(v: Value): string {
    match v
    case Str(s) => s
    case Bool(b) => if b then "True" else "False"
    case Null => "None"
    case ObjectId(oid) => Hex(oid, 24)
    case Other(text) => text
  }

  function Pow16(w: nat): (p: nat)
    ensures p > 0
  {
    if w == 0 then 1 else 16 * Pow16(w - 1)
  }

  function HexDigit(d: nat): char
    requires d < 16
  {
    "0123456789abcdef"[d]
  }

  predicate IsHexDigit(c: char) {
    '0' <= c <= '9' || 'a' <= c <= 'f'
  }

  function DigitValue(c: char): (d: nat)
    requires IsHexDigit(c)
    ensures d < 16
  {
    if '0' <= c <= '9' then c as int - '0' as int else c as int - 'a' as int + 10
  }

  lemma {:induction false} Pow16Add(a: nat, b: nat)
    ensures Pow16(a + b) == Pow16(a) * Pow16(b)
  {
    if a > 0 {
      Pow16Add(a - 1, b);
    }
  }

  lemma Pow16Of24()
    ensures Pow16(24) == ObjectIdBound
  {
    assert Pow16(3) == 0x1000;
    Pow16Add(3, 3);
    assert Pow16(6) == 0x100_0000;
    Pow16Add(6, 6);
    assert Pow16(12) == 0x1_0000_0000_0000;
    Pow16Add(12, 12);
  }

  /** The lowest `w` hexadecimal digits of `n`, most significant first. */
  function Hex(n: nat, w: nat): (s: string)
    decreases w
  {
    if w == 0 then "" else Hex(n / 16, w - 1) + [HexDigit(n % 16)]
  }

  /** The number a string of hexadecimal digits denotes. */
  function HexValue(s: string): nat
    requires forall i :: 0 <= i < |s| ==> IsHexDigit(s[i])
  {
    if s == [] then 0 else 16 * HexValue(s[..|s| - 1]) + DigitValue(s[|s| - 1])
  }

  lemma {:induction false} HexShape(n: nat, w: nat)
    ensures |Hex(n, w)| == w
    ensures forall i :: 0 <= i < w ==> IsHexDigit(Hex(n, w)[i])
  {
    if w > 0 {
      HexShape(n / 16, w - 1);
    }
  }

  lemma {:induction false} HexRoundTrip(n: nat, w: nat)
    requires n < Pow16(w)
    ensures |Hex(n, w)| == w
    ensures forall i :: 0 <= i < w ==> IsHexDigit(Hex(n, w)[i])
    ensures HexValue(Hex(n, w)) == n
  {
    HexShape(n, w);
    if w > 0 {
      var s := Hex(n, w);
      HexRoundTrip(n / 16, w - 1);
      assert s[..w - 1] == Hex(n / 16, w - 1);
      assert DigitValue(s[w - 1]) == n % 16;
    }
  }

  /**
   * `str()` of an ObjectId is 24 lower-case hexadecimal digits, and it
   * determines the ObjectId: two distinct ObjectIds never encode to the
   * same public `id`.
   */
  lemma ObjectIdText(a: Oid, b: Oid)
    ensures |ToStr(ObjectId(a))| == 24
    ensures forall i :: 0 <= i < 24 ==> IsHexDigit(ToStr(ObjectId(a))[i])
    ensures ToStr(ObjectId(a)) == ToStr(ObjectId(b)) <==> a == b
  {
    Pow16Of24();
    HexRoundTrip(a, 24);
    HexRoundTrip(b, 24);
  }
}
