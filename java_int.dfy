/**
 * Java's fixed-width integer arithmetic and String.hashCode, written out
 * explicitly: Dafny integers are unbounded, Java's `int` and `long` wrap
 * around modulo 2^32 and 2^64.
 */
module JavaInt {
  import opened Wrappers

  const TWO_32: int := 0x1_0000_0000
  const TWO_64: int := 0x1_0000_0000_0000_0000

  predicate IsInt32(x: int) { -0x8000_0000 <= x < 0x8000_0000 }
  predicate IsInt64(x: int) { -0x8000_0000_0000_0000 <= x < 0x8000_0000_0000_0000 }

  type Int32 = x: int | IsInt32(x)
  type Int64 = x: int | IsInt64(x)

  /** The Java `int` that the mathematical value `x` wraps around to. */
  function Wrap32(x: int): (r: Int32)
    ensures (x - r) % TWO_32 == 0
    ensures IsInt32(x) ==> r == x
  {
    var m := (x + 0x8000_0000) % TWO_32;
    assert x - (m - 0x8000_0000) == TWO_32 * ((x + 0x8000_0000) / TWO_32);
    m - 0x8000_0000
  }

  /** The Java `long` that the mathematical value `x` wraps around to. */
  function Wrap64(x: int): (r: Int64)
    ensures (x - r) % TWO_64 == 0
    ensures IsInt64(x) ==> r == x
  {
    var m := (x + 0x8000_0000_0000_0000) % TWO_64;
    assert x - (m - 0x8000_0000_0000_0000) == TWO_64 * ((x + 0x8000_0000_0000_0000) / TWO_64);
    m - 0x8000_0000_0000_0000
  }

  /** Two Java ints that agree modulo 2^32 are the same int. */
  lemma {:induction false} Wrap32Unique(x: int, y: int)
    requires (x - y) % TWO_32 == 0
    ensures Wrap32(x) == Wrap32(y)
  {
    var rx, ry := Wrap32(x), Wrap32(y);
    var d := rx - ry;
    assert (x - rx) % TWO_32 == 0 && (y - ry) % TWO_32 == 0;
    assert (x - rx) == TWO_32 * ((x - rx) / TWO_32);
    assert (y - ry) == TWO_32 * ((y - ry) / TWO_32);
    assert (x - y) == TWO_32 * ((x - y) / TWO_32);
    var k := (x - y) / TWO_32 - (x - rx) / TWO_32 + (y - ry) / TWO_32;
    assert d == TWO_32 * k;
    assert -TWO_32 < d < TWO_32;
  }

  /** Two Java longs that agree modulo 2^64 are the same long. */
  lemma {:induction false} Wrap64Unique(x: int, y: int)
    requires (x - y) % TWO_64 == 0
    ensures Wrap64(x) == Wrap64(y)
  {
    var rx, ry := Wrap64(x), Wrap64(y);
    var d := rx - ry;
    assert (x - rx) % TWO_64 == 0 && (y - ry) % TWO_64 == 0;
    assert (x - rx) == TWO_64 * ((x - rx) / TWO_64);
    assert (y - ry) == TWO_64 * ((y - ry) / TWO_64);
    assert (x - y) == TWO_64 * ((x - y) / TWO_64);
    var k := (x - y) / TWO_64 - (x - rx) / TWO_64 + (y - ry) / TWO_64;
    assert d == TWO_64 * k;
    assert -TWO_64 < d < TWO_64;
  }

  /**
   * The UTF-16 code units of one character, as a Java string stores it: a
   * character up to U+FFFF is one unit, a supplementary character is a
   * high surrogate followed by a low surrogate.
   */
  function CodeUnits(c: char): (u: seq<int>)
    ensures 1 <= |u| <= 2
    ensures forall k | 0 <= k < |u| :: 0 <= u[k] < 0x1_0000
    ensures |u| == 1 <==> c as int < 0x1_0000
    ensures |u| == 1 ==> u[0] == c as int && !(0xD800 <= u[0] < 0xE000)
    ensures |u| == 2 ==>
      && 0xD800 <= u[0] < 0xDC00 && 0xDC00 <= u[1] < 0xE000
      && 0x1_0000 + (u[0] - 0xD800) * 0x400 + (u[1] - 0xDC00) == c as int
  {
    if c as int < 0x1_0000 then [c as int]
    else
      var v := c as int - 0x1_0000;
      [0xD800 + v / 0x400, 0xDC00 + v % 0x400]
  }

  /** A string without supplementary characters. */
  predicate BasicPlane(s: string)
  {
    forall k | 0 <= k < |s| :: s[k] as int < 0x1_0000
  }

  /** The UTF-16 code units of a string: those of each character, in order. */
  function Utf16(s: string): seq<int>
  {
    if s == [] then [] else Utf16(s[..|s| - 1]) + CodeUnits(s[|s| - 1])
  }

  /**
   * A string has one or two code units per character, each a 16-bit
   * value, and exactly the characters' code points when there are no
   * supplementary characters.
   */
  lemma {:induction false} Utf16Units(s: string)
    ensures |s| <= |Utf16(s)| <= 2 * |s|
    ensures forall k | 0 <= k < |Utf16(s)| :: 0 <= Utf16(s)[k] < 0x1_0000
    ensures BasicPlane(s) ==> Utf16(s) == seq(|s|, k requires 0 <= k < |s| => s[k] as int)
  {
    if s != [] {
      var init := s[..|s| - 1];
      Utf16Units(init);
      if BasicPlane(s) {
        forall k | 0 <= k < |init| ensures init[k] as int < 0x1_0000 { assert init[k] == s[k]; }
      }
    }
  }

  /**
   * The loop of String.hashCode over code units, left to right in `int`
   * arithmetic: each step multiplies by 31, adds the next unit and wraps.
   */
  function UnitsHashCode(u: seq<int>): Int32
  {
    if u == [] then 0
    else Wrap32(31 * UnitsHashCode(u[..|u| - 1]) + u[|u| - 1])
  }

  /**
   * java.lang.String.hashCode: the hash of the string's UTF-16 code units,
   * which is the documented polynomial over them wrapped once.
   */
  function StringHashCode(s: string): (h: Int32)
    ensures h == Wrap32(Polynomial31(Utf16(s)))
  {
    UnitsHashCodeIsWrappedPolynomial(Utf16(s));
    UnitsHashCode(Utf16(s))
  }

  /** The documented value u[0]*31^(n-1) + ... + u[n-1], in unbounded arithmetic. */
  function Polynomial31(u: seq<int>): int
  {
    if u == [] then 0 else 31 * Polynomial31(u[..|u| - 1]) + u[|u| - 1]
  }

  /** Wrapping after every step gives the documented polynomial wrapped once. */
  lemma {:induction false} UnitsHashCodeIsWrappedPolynomial(u: seq<int>)
    ensures UnitsHashCode(u) == Wrap32(Polynomial31(u))
  {
    if u != [] {
      var p := u[..|u| - 1];
      var c := u[|u| - 1];
      UnitsHashCodeIsWrappedPolynomial(p);
      var h, q := UnitsHashCode(p), Polynomial31(p);
      MultipleStaysCongruent(q - h, 31);
      assert (31 * q + c) - (31 * h + c) == 31 * (q - h);
      Wrap32Unique(31 * q + c, 31 * h + c);
    }
  }

  /** For a string without supplementary characters, String.hashCode is the polynomial over its characters. */
  lemma BasicPlaneHashCode(s: string)
    requires BasicPlane(s)
    ensures StringHashCode(s) == Wrap32(Polynomial31(seq(|s|, k requires 0 <= k < |s| => s[k] as int)))
  {
    Utf16Units(s);
  }

  /** A supplementary character is hashed as its surrogate pair: 31 * 0xD83D + 0xDE00. */
  lemma SupplementaryCharacterHash()
    ensures Utf16("\U{1F600}") == [0xD83D, 0xDE00]
    ensures StringHashCode("\U{1F600}") == 1772899
  {
    var s := "\U{1F600}";
    assert s[..0] == [];
    assert Utf16(s) == CodeUnits(s[0]);
    var u := [0xD83D, 0xDE00];
    assert u[..1] == [0xD83D] && u[..1][..0] == [];
    assert UnitsHashCode([0xD83D]) == Wrap32(0xD83D) == 0xD83D;
    assert UnitsHashCode(u) == Wrap32(31 * 0xD83D + 0xDE00);
  }

  /** A multiple of a number congruent to 0 modulo 2^32 is congruent to 0 too. */
  lemma MultipleStaysCongruent(d: int, m: int)
    requires d % TWO_32 == 0
    ensures (m * d) % TWO_32 == 0
  {
    var k := d / TWO_32;
    assert d == TWO_32 * k;
    assert m * d == TWO_32 * (m * k);
  }

  /** Java string concatenation of a possibly-null string: null prints as "null". */
  function Concat(s: Option<string>): string
  {
    match s
    case None => "null"
    case Some(v) => v
  }
}
