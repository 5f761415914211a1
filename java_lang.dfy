/** The few pieces of Java's own semantics that the Whydah classes lean on:
    nullable String references, the text that string concatenation gives a
    null reference or an int, the null-safe field comparison used by equals,
    32-bit int arithmetic and String.hashCode. */
module JavaLang {

  /** A Java reference that may be null: None is null. */
  datatype Option<+T> = None | Some(value: T) {
    predicate IsFailure() { None? }

    function PropagateFailure<U>(): Option<U>
      requires None?
    {
      None
    }

    function Extract(): T
      requires Some?
    {
      value
    }
  }

  /** String.valueOf for a String reference, which is what `"..." + s`
      appends: a null reference becomes the four letters "null". */
  function Render(s: Option<string>): string {
    match s
    case None => "null"
    case Some(v) => v
  }

  /** A null reference and the string "null" concatenate to the same text. */
  lemma RenderConflatesNull(s: Option<string>)
    ensures Render(s) == "null" <==> s == None || s == Some("null")
  {}

  /** The comparison each field of an equals method makes:
      `a != null ? a.equals(b) : b == null`. */
  predicate NullSafeEquals(a: Option<string>, b: Option<string>) {
    if a.Some? then b.Some? && a.value == b.value else b.None?
  }

  lemma NullSafeEqualsIsEquality(a: Option<string>, b: Option<string>)
    ensures NullSafeEquals(a, b) <==> a == b
  {}

  // ---------------------------------------------------------------------
  // 32-bit int arithmetic

  /** A Java int, as its 32-bit two's-complement pattern: + and * on bv32
      wrap around exactly as Java's int operations do. */
  type Int32 = bv32

  /** The Java int `31 * h + x`. */
  function MulAdd31(h: Int32, x: Int32): Int32 {
    31 * h + x
  }

  /** The 31-polynomial `h = 31 * h + x` folded over xs from h = 0, in Java int
      arithmetic: the shape of String.hashCode and of a hand-written
      hashCode over several fields. */
  function Poly31(xs: seq<Int32>): Int32 {
    if xs == [] then 0 else MulAdd31(Poly31(xs[..|xs| - 1]), xs[|xs| - 1])
  }

  lemma Poly31Snoc(xs: seq<Int32>, x: Int32)
    ensures Poly31(xs + [x]) == MulAdd31(Poly31(xs), x)
  {
    assert (xs + [x])[..|xs|] == xs;
  }

  /** A single term: the fold starting from 0 leaves it unchanged, which is
      why a hashCode may start its accumulator at the first field's hash. */
  lemma Poly31Single(x: Int32)
    ensures Poly31([x]) == x
  {
    assert [x][..0] == [];
  }

  // ---------------------------------------------------------------------
  // String.hashCode

  /** The UTF-16 code units Java stores for one character. */
  function Utf16Units(c: char): (r: seq<int>)
    ensures |r| == (if (c as int) < 0x1_0000 then 1 else 2)
    ensures |r| == 1 ==> r[0] == c as int
    ensures |r| == 2 ==> 0xD800 <= r[0] < 0xDC00 <= r[1] < 0xE000
    ensures |r| == 2 ==> 0x1_0000 + (r[0] - 0xD800) * 0x400 + (r[1] - 0xDC00) == c as int
  {
    var n := c as int;
    if n < 0x1_0000 then [n]
    else [0xD800 + (n - 0x1_0000) / 0x400, 0xDC00 + (n - 0x1_0000) % 0x400]
  }

  /** The code units of a string, each below 0x1_0000. */
  function Utf16(s: string): (r: seq<Int32>) {
    if s == [] then []
    else
      var units := Utf16Units(s[|s| - 1]);
      Utf16(s[..|s| - 1]) + seq(|units|, i requires 0 <= i < |units| => (if 0 <= units[i] < 0x1_0000 then units[i] else 0) as bv32)
  }

  /** String.hashCode: the 31-polynomial over the string's UTF-16 code units. */
  function StringHashCode(s: string): Int32 {
    Poly31(Utf16(s))
  }

  /** Appending a character of the Basic Multilingual Plane absorbs its code
      into the hash as one more `31 * h + c` step. */
  lemma StringHashCodeSnoc(s: string, c: char)
    requires (c as int) < 0x1_0000
    ensures StringHashCode(s + [c]) == MulAdd31(StringHashCode(s), (c as int) as bv32)
  {
    assert (s + [c])[..|s|] == s;
    assert Utf16(s + [c]) == Utf16(s) + [(c as int) as bv32];
    Poly31Snoc(Utf16(s), (c as int) as bv32);
  }

  /** The hash a field contributes to a hashCode: 0 for null. */
  function FieldHash(s: Option<string>): Int32 {
    match s
    case None => 0
    case Some(v) => StringHashCode(v)
  }

  // ---------------------------------------------------------------------
  // Integer.toString, which is what `"..." + n` appends for an int n

  function DigitChar(d: nat): char
    requires d < 10
  {
    "0123456789"[d]
  }

  function NatToString(n: nat): (r: string)
    ensures |r| > 0
    ensures forall i :: 0 <= i < |r| ==> '0' <= r[i] <= '9'
    ensures r[0] == '0' ==> n == 0
    decreases n
  {
    if n < 10 then [DigitChar(n)] else NatToString(n / 10) + [DigitChar(n % 10)]
  }

  /** Decimal text, with a leading '-' for a negative value. */
  function IntToString(n: int): string {
    if n < 0 then "-" + NatToString(-n) else NatToString(n)
  }

  /** Reading decimal text back: an independent reference for IntToString. */
  function DigitValue(c: char): Option<nat> {
    if '0' <= c <= '9' then Some((c as int) - ('0' as int)) else None
  }

  function ParseNat(s: string): Option<nat>
    decreases |s|
  {
    if s == [] then None
    else
      var d :- DigitValue(s[|s| - 1]);
      if |s| == 1 then Some(d)
      else
        var h :- ParseNat(s[..|s| - 1]);
        Some(10 * h + d)
  }

  function ParseInt(s: string): Option<int> {
    if |s| > 0 && s[0] == '-' then
      var n :- ParseNat(s[1..]);
      var v: int := -(n as int);
      Some(v)
    else ParseNat(s)
  }

  lemma {:induction false} ParseNatToString(n: nat)
    ensures ParseNat(NatToString(n)) == Some(n)
    decreases n
  {
    if n >= 10 {
      var s := NatToString(n);
      var p := NatToString(n / 10);
      assert s == p + [DigitChar(n % 10)];
      assert s[..|s| - 1] == p;
      ParseNatToString(n / 10);
    }
  }

  /** Integer.toString is injective: the decimal text gives back the int. */
  lemma IntToStringRoundTrip(n: int)
    ensures ParseInt(IntToString(n)) == Some(n)
  {
    if n < 0 {
      ParseNatToString(-n);
      assert IntToString(n)[0] == '-';
      assert IntToString(n)[1..] == NatToString(-n);
    } else {
      ParseNatToString(n);
    }
  }
}
